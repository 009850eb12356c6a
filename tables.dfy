/**
 * The rows of the quiz database and the pure functions over its ledger tables:
 * pending submissions (UserTestSubmission) and permanent score records (TestRecords).
 */
module Tables {
  import opened Wrappers

  /** The authenticated user: primary key and username (`str(user)`). */
  datatype User = User(id: nat, username: string)

  datatype Test = Test(id: nat, name: string, totalQuestions: nat)

  datatype Question = Question(id: nat, testId: nat, name: string)

  /** An Option row; `name` is the stored name, which ends with the option's own key. */
  datatype AnswerOption = AnswerOption(id: nat, questionId: nat, name: string, isCorrect: bool)

  /** A Classroom row: the stored password is compared as plain text. */
  datatype Classroom = Classroom(id: nat, name: string, hashedPassword: string, students: set<nat>)

  /** A pending UserTestSubmission row. */
  datatype Submission = Submission(user: nat, testId: nat, questionId: nat, selectedOptionId: nat, score: nat)

  /** A Sessions row: `user` is free text, `number` the test's key. */
  datatype Session = Session(id: nat, sessionName: string, user: string, number: nat, timestamp: string)

  /**
   * A TestRecords row: either one answered question (names copied by value) or the
   * total of one finalize. Both carry the finalize's group id and its session.
   */
  datatype Record =
    | QuestionRecord(id: nat, user: nat, testId: nat, questionId: Option<nat>,
                     questionName: string, selectedOptionName: string, recordedScore: nat,
                     groupId: nat, sessionId: nat)
    | TotalRecord(id: nat, user: nat, testId: nat, totalRecordedScore: nat,
                  groupId: nat, sessionId: nat)

  /** `UserTestSubmission.objects.filter(user=user, test=test)`, in table order. */
  function PendingOf(subs: seq<Submission>, user: nat, testId: nat): (r: seq<Submission>)
    ensures forall s :: s in r <==> s in subs && s.user == user && s.testId == testId
    ensures |r| <= |subs|
  {
    if subs == [] then []
    else
      var last := subs[|subs| - 1];
      PendingOf(subs[..|subs| - 1], user, testId) + (if last.user == user && last.testId == testId then [last] else [])
  }

  /** What `.delete()` on `filter(user=user, test=test)` leaves behind, in table order. */
  function WithoutPending(subs: seq<Submission>, user: nat, testId: nat): (r: seq<Submission>)
    ensures forall s :: s in r <==> s in subs && !(s.user == user && s.testId == testId)
    ensures |r| + |PendingOf(subs, user, testId)| == |subs|
  {
    if subs == [] then []
    else
      var last := subs[|subs| - 1];
      WithoutPending(subs[..|subs| - 1], user, testId) + (if last.user == user && last.testId == testId then [] else [last])
  }

  /** What `.delete()` on `filter(user=user)` leaves behind: every other user's rows, in order. */
  function WithoutUser(subs: seq<Submission>, user: nat): (r: seq<Submission>)
    ensures forall s :: s in r <==> s in subs && s.user != user
  {
    if subs == [] then []
    else
      var last := subs[|subs| - 1];
      WithoutUser(subs[..|subs| - 1], user) + (if last.user == user then [] else [last])
  }

  /** The pending rows keep every copy of each (user, test) row: re-answers stay separate rows. */
  lemma {:induction false} PendingOfCounts(subs: seq<Submission>, user: nat, testId: nat)
    ensures forall s :: multiset(PendingOf(subs, user, testId))[s]
                        == if s.user == user && s.testId == testId then multiset(subs)[s] else 0
  {
    if subs != [] {
      var n := |subs| - 1;
      PendingOfCounts(subs[..n], user, testId);
      assert subs == subs[..n] + [subs[n]];
    }
  }

  /** The delete of the pending rows keeps every copy of every other row. */
  lemma {:induction false} WithoutPendingCounts(subs: seq<Submission>, user: nat, testId: nat)
    ensures forall s :: multiset(WithoutPending(subs, user, testId))[s]
                        == if s.user == user && s.testId == testId then 0 else multiset(subs)[s]
  {
    if subs != [] {
      var n := |subs| - 1;
      WithoutPendingCounts(subs[..n], user, testId);
      assert subs == subs[..n] + [subs[n]];
    }
  }

  /** Resetting a user keeps every copy of every other user's rows. */
  lemma {:induction false} WithoutUserCounts(subs: seq<Submission>, user: nat)
    ensures forall s :: multiset(WithoutUser(subs, user))[s] == if s.user == user then 0 else multiset(subs)[s]
  {
    if subs != [] {
      var n := |subs| - 1;
      WithoutUserCounts(subs[..n], user);
      assert subs == subs[..n] + [subs[n]];
    }
  }

  /** `sum(s.score for s in subs)`. */
  function SumScores(subs: seq<Submission>): nat
  {
    if subs == [] then 0 else SumScores(subs[..|subs| - 1]) + subs[|subs| - 1].score
  }

  /** A score of 0 or 1 per submission bounds the total by the number of submissions. */
  lemma {:induction false} SumScoresBounded(subs: seq<Submission>)
    requires forall s :: s in subs ==> s.score <= 1
    ensures SumScores(subs) <= |subs|
  {
    if subs != [] {
      assert forall s :: s in subs[..|subs| - 1] ==> s in subs;
      SumScoresBounded(subs[..|subs| - 1]);
    }
  }

  /** Every submission can be turned into a record: its option and that option's question exist. */
  predicate Resolves(s: Submission, options: map<nat, AnswerOption>, questions: map<nat, Question>)
  {
    s.selectedOptionId in options && options[s.selectedOptionId].questionId in questions
  }

  /**
   * The per-question record written for submission `s`: question and option names are
   * copied from the selected option and that option's question, the score from `s`.
   */
  function RecordFor(s: Submission, options: map<nat, AnswerOption>, questions: map<nat, Question>,
                     id: nat, user: nat, testId: nat, groupId: nat, sessionId: nat): Record
    requires Resolves(s, options, questions)
  {
    var option := options[s.selectedOptionId];
    QuestionRecord(id, user, testId, Some(s.questionId), questions[option.questionId].name,
                   option.name, s.score, groupId, sessionId)
  }

  /** The per-question records of one finalize, with consecutive ids from `firstId`. */
  function PerQuestionRecords(pending: seq<Submission>, options: map<nat, AnswerOption>, questions: map<nat, Question>,
                              firstId: nat, user: nat, testId: nat, groupId: nat, sessionId: nat): (r: seq<Record>)
    requires forall s :: s in pending ==> Resolves(s, options, questions)
    ensures |r| == |pending|
    ensures forall k :: 0 <= k < |r| ==>
      r[k] == RecordFor(pending[k], options, questions, firstId + k, user, testId, groupId, sessionId)
  {
    if pending == [] then []
    else
      var n := |pending| - 1;
      PerQuestionRecords(pending[..n], options, questions, firstId, user, testId, groupId, sessionId)
        + [RecordFor(pending[n], options, questions, firstId + n, user, testId, groupId, sessionId)]
  }

  /** Sum of `recorded_score` over the per-question records of group `g`. */
  function GroupQuestionSum(records: seq<Record>, g: nat): nat
  {
    if records == [] then 0
    else
      var last := records[|records| - 1];
      GroupQuestionSum(records[..|records| - 1], g)
        + (if last.QuestionRecord? && last.groupId == g then last.recordedScore else 0)
  }

  /** The `total_recorded_score` values of the total records of group `g`, in order. */
  function GroupTotals(records: seq<Record>, g: nat): seq<nat>
  {
    if records == [] then []
    else
      var last := records[|records| - 1];
      GroupTotals(records[..|records| - 1], g)
        + (if last.TotalRecord? && last.groupId == g then [last.totalRecordedScore] else [])
  }

  lemma {:induction false} GroupQuestionSumAppend(a: seq<Record>, b: seq<Record>, g: nat)
    ensures GroupQuestionSum(a + b, g) == GroupQuestionSum(a, g) + GroupQuestionSum(b, g)
  {
    if b != [] {
      var n := |b| - 1;
      assert (a + b)[..|a + b| - 1] == a + b[..n];
      GroupQuestionSumAppend(a, b[..n], g);
    } else {
      assert a + b == a;
    }
  }

  lemma {:induction false} GroupTotalsAppend(a: seq<Record>, b: seq<Record>, g: nat)
    ensures GroupTotals(a + b, g) == GroupTotals(a, g) + GroupTotals(b, g)
  {
    if b != [] {
      var n := |b| - 1;
      assert (a + b)[..|a + b| - 1] == a + b[..n];
      GroupTotalsAppend(a, b[..n], g);
    } else {
      assert a + b == a;
    }
  }

  /** Records of other groups contribute nothing to group `g`. */
  lemma {:induction false} OtherGroupsContributeNothing(records: seq<Record>, g: nat)
    requires forall r :: r in records ==> r.groupId != g
    ensures GroupQuestionSum(records, g) == 0 && GroupTotals(records, g) == []
  {
    if records != [] {
      assert forall r :: r in records[..|records| - 1] ==> r in records;
      OtherGroupsContributeNothing(records[..|records| - 1], g);
    }
  }

  /** A per-question record of group `g` adds its score to the group's sum and no total. */
  lemma AppendQuestionRecord(front: seq<Record>, last: Record, g: nat)
    requires last.QuestionRecord? && last.groupId == g
    ensures GroupQuestionSum(front + [last], g) == GroupQuestionSum(front, g) + last.recordedScore
    ensures GroupTotals(front + [last], g) == GroupTotals(front, g)
  {
    assert (front + [last])[..|front|] == front;
  }

  /** The per-question records of one finalize add up to the sum of the consumed scores. */
  lemma {:induction false} PerQuestionSum(pending: seq<Submission>, options: map<nat, AnswerOption>, questions: map<nat, Question>,
                                          firstId: nat, user: nat, testId: nat, g: nat, sessionId: nat)
    requires forall s :: s in pending ==> Resolves(s, options, questions)
    ensures GroupQuestionSum(PerQuestionRecords(pending, options, questions, firstId, user, testId, g, sessionId), g)
            == SumScores(pending)
    ensures GroupTotals(PerQuestionRecords(pending, options, questions, firstId, user, testId, g, sessionId), g) == []
  {
    if pending != [] {
      var n := |pending| - 1;
      assert forall s :: s in pending[..n] ==> s in pending;
      var front := PerQuestionRecords(pending[..n], options, questions, firstId, user, testId, g, sessionId);
      var last := RecordFor(pending[n], options, questions, firstId + n, user, testId, g, sessionId);
      PerQuestionSum(pending[..n], options, questions, firstId, user, testId, g, sessionId);
      AppendQuestionRecord(front, last, g);
    }
  }

  /** Everything one finalize appends: the per-question records, then the total record. */
  function FinalizeRecords(pending: seq<Submission>, options: map<nat, AnswerOption>, questions: map<nat, Question>,
                           firstId: nat, user: nat, testId: nat, groupId: nat, sessionId: nat): (r: seq<Record>)
    requires forall s :: s in pending ==> Resolves(s, options, questions)
    ensures |r| == |pending| + 1
    ensures forall k :: 0 <= k < |r| ==>
      r[k].id == firstId + k && r[k].groupId == groupId && r[k].sessionId == sessionId
      && r[k].user == user && r[k].testId == testId
    ensures forall k :: 0 <= k < |pending| ==> r[k].QuestionRecord? && r[k].recordedScore == pending[k].score
    ensures r[|pending|].TotalRecord?
  {
    PerQuestionRecords(pending, options, questions, firstId, user, testId, groupId, sessionId)
      + [TotalRecord(firstId + |pending|, user, testId, SumScores(pending), groupId, sessionId)]
  }

  /**
   * The records of a fresh group balance: appended to a table whose records all carry
   * other group ids, the per-question scores of the new group sum to its one total.
   */
  lemma FinalizedGroupBalanced(prior: seq<Record>, pending: seq<Submission>,
                               options: map<nat, AnswerOption>, questions: map<nat, Question>,
                               firstId: nat, user: nat, testId: nat, g: nat, sessionId: nat)
    requires forall s :: s in pending ==> Resolves(s, options, questions)
    requires forall r :: r in prior ==> r.groupId < g
    ensures var all := prior + FinalizeRecords(pending, options, questions, firstId, user, testId, g, sessionId);
            GroupTotals(all, g) == [SumScores(pending)] && GroupQuestionSum(all, g) == SumScores(pending)
  {
    var per := PerQuestionRecords(pending, options, questions, firstId, user, testId, g, sessionId);
    var total := TotalRecord(firstId + |pending|, user, testId, SumScores(pending), g, sessionId);
    assert prior + FinalizeRecords(pending, options, questions, firstId, user, testId, g, sessionId) == (prior + per) + [total];
    OtherGroupsContributeNothing(prior, g);
    PerQuestionSum(pending, options, questions, firstId, user, testId, g, sessionId);
    GroupQuestionSumAppend(prior, per, g);
    GroupTotalsAppend(prior, per, g);
    GroupQuestionSumAppend(prior + per, [total], g);
    GroupTotalsAppend(prior + per, [total], g);
  }

  /** Every pending submission resolves, and its selected option belongs to its question. */
  ghost predicate SubmissionsResolve(subs: seq<Submission>, options: map<nat, AnswerOption>, questions: map<nat, Question>)
  {
    forall s :: s in subs ==> Resolves(s, options, questions) && options[s.selectedOptionId].questionId == s.questionId
  }

  /** Every stored answer scores 0 or 1: `score = 1 if selected_option.is_correct else 0`. */
  ghost predicate ScoresBinary(subs: seq<Submission>)
  {
    forall s :: s in subs ==> s.score <= 1
  }

  /** Deleting submissions keeps the rest resolvable; the ones a finalize consumes resolve too. */
  lemma PendingResolves(subs: seq<Submission>, user: nat, testId: nat,
                        options: map<nat, AnswerOption>, questions: map<nat, Question>)
    requires SubmissionsResolve(subs, options, questions)
    ensures forall s :: s in PendingOf(subs, user, testId) ==> Resolves(s, options, questions)
    ensures SubmissionsResolve(WithoutPending(subs, user, testId), options, questions)
  {
  }

  /** Once the (user, test) rows are deleted, none is pending for that pair. */
  lemma NothingPendingAfterDelete(subs: seq<Submission>, user: nat, testId: nat)
    ensures PendingOf(WithoutPending(subs, user, testId), user, testId) == []
  {
    NoPendingWithoutMatches(WithoutPending(subs, user, testId), user, testId);
  }

  /** A table with no row of the (user, test) pair has nothing pending for it. */
  lemma {:induction false} NoPendingWithoutMatches(subs: seq<Submission>, user: nat, testId: nat)
    requires forall s :: s in subs ==> !(s.user == user && s.testId == testId)
    ensures PendingOf(subs, user, testId) == []
  {
    if subs != [] {
      var front := subs[..|subs| - 1];
      assert forall s :: s in front ==> s in subs;
      NoPendingWithoutMatches(front, user, testId);
      assert subs[|subs| - 1] in subs;
    }
  }

  /** Every record id is below the next id to hand out, and every group id at most the counter. */
  ghost predicate RecordsBelow(records: seq<Record>, nextRecordId: nat, counter: nat)
  {
    forall r :: r in records ==> r.id < nextRecordId && r.groupId <= counter
  }

  /** A finalize keeps the records table within the advanced id and group counters. */
  lemma FinalizeRecordsBelow(prior: seq<Record>, pending: seq<Submission>,
                             options: map<nat, AnswerOption>, questions: map<nat, Question>,
                             firstId: nat, user: nat, testId: nat, g: nat, sessionId: nat)
    requires forall s :: s in pending ==> Resolves(s, options, questions)
    requires RecordsBelow(prior, firstId, g)
    ensures RecordsBelow(prior + FinalizeRecords(pending, options, questions, firstId, user, testId, g, sessionId),
                         firstId + |pending| + 1, g)
  {
    var added := FinalizeRecords(pending, options, questions, firstId, user, testId, g, sessionId);
    forall r | r in prior + added
      ensures r.id < firstId + |pending| + 1 && r.groupId <= g
    {
      if r !in prior {
        var k :| 0 <= k < |added| && added[k] == r;
      }
    }
  }

  /** Keys of the questions of a test: `Question.objects.filter(test=test)`. */
  function QuestionKeys(questions: map<nat, Question>, testId: nat): set<nat>
  {
    set k: nat | k in questions && questions[k].testId == testId
  }

  /** `Question.objects.filter(test=test).count()`. */
  function QuestionCount(questions: map<nat, Question>, testId: nat): nat
  {
    |QuestionKeys(questions, testId)|
  }

  /** Adding a question of a test raises that test's count by one. */
  lemma QuestionCountAfterInsert(questions: map<nat, Question>, q: Question)
    requires q.id !in questions
    ensures QuestionCount(questions[q.id := q], q.testId) == QuestionCount(questions, q.testId) + 1
  {
    assert QuestionKeys(questions[q.id := q], q.testId) == QuestionKeys(questions, q.testId) + {q.id};
  }

  /** Deleting a question lowers its test's count by one. */
  lemma QuestionCountAfterRemove(questions: map<nat, Question>, questionId: nat)
    requires questionId in questions
    ensures var t := questions[questionId].testId;
            QuestionCount(questions - {questionId}, t) == QuestionCount(questions, t) - 1
  {
    var t := questions[questionId].testId;
    assert QuestionKeys(questions - {questionId}, t) == QuestionKeys(questions, t) - {questionId};
  }

  /** Keys of the options of a question flagged correct: `filter(question=question, is_correct=True)`. */
  function CorrectOptionKeys(options: map<nat, AnswerOption>, questionId: nat): set<nat>
  {
    set k: nat | k in options && options[k].questionId == questionId && options[k].isCorrect
  }

  /** The element of a one-element set, which is what Django's `.get` returns. */
  ghost function TheOne<T>(s: set<T>): (x: T)
    requires |s| == 1
    ensures x in s
  {
    var x :| x in s; x
  }

  lemma OnlyOne<T>(s: set<T>, x: T)
    requires |s| == 1 && x in s
    ensures x == TheOne(s)
  {
    assert |s - {x}| == |s| - 1 == 0;
    assert s - {x} == {};
  }

  /** Submissions that survive the cascade when question `questionId` is deleted. */
  function WithoutQuestion(subs: seq<Submission>, questionId: nat): (r: seq<Submission>)
    ensures forall s :: s in r <==> s in subs && s.questionId != questionId
  {
    if subs == [] then []
    else
      var last := subs[|subs| - 1];
      WithoutQuestion(subs[..|subs| - 1], questionId) + (if last.questionId == questionId then [] else [last])
  }

  /** The cascade keeps every copy of every submission answering another question. */
  lemma {:induction false} WithoutQuestionCounts(subs: seq<Submission>, questionId: nat)
    ensures forall s :: multiset(WithoutQuestion(subs, questionId))[s]
                        == if s.questionId == questionId then 0 else multiset(subs)[s]
  {
    if subs != [] {
      var n := |subs| - 1;
      WithoutQuestionCounts(subs[..n], questionId);
      assert subs == subs[..n] + [subs[n]];
    }
  }

  /** The options table after question `questionId` is deleted: its options go, the rest stay as they were. */
  function WithoutOptionsOf(options: map<nat, AnswerOption>, questionId: nat): map<nat, AnswerOption>
  {
    map k | k in options && options[k].questionId != questionId :: options[k]
  }

  /** A record after question `questionId` is deleted: its question link is cleared, nothing else changes. */
  function Unlinked(r: Record, questionId: nat): Record
  {
    if r.QuestionRecord? && r.questionId == Some(questionId) then r.(questionId := None) else r
  }

  /** The records table after question `questionId` is deleted: same rows, scores, names and groups. */
  function NullifyQuestion(records: seq<Record>, questionId: nat): (r: seq<Record>)
    ensures |r| == |records|
    // every row survives with its key, owner, test, group and session ...
    ensures forall k :: 0 <= k < |r| ==>
      && r[k].id == records[k].id && r[k].user == records[k].user && r[k].testId == records[k].testId
      && r[k].groupId == records[k].groupId && r[k].sessionId == records[k].sessionId
    // ... and no row links the deleted question any more
    ensures forall rec :: rec in r ==> !(rec.QuestionRecord? && rec.questionId == Some(questionId))
    // a per-question row keeps its kind, its copied names and its score ...
    ensures forall k :: 0 <= k < |r| && records[k].QuestionRecord? ==>
      && r[k].QuestionRecord? && r[k].questionName == records[k].questionName
      && r[k].selectedOptionName == records[k].selectedOptionName && r[k].recordedScore == records[k].recordedScore
    // ... and a row not linked to the deleted question is left exactly as it was
    ensures forall k :: 0 <= k < |r| && !(records[k].QuestionRecord? && records[k].questionId == Some(questionId)) ==>
      r[k] == records[k]
  {
    seq(|records|, k requires 0 <= k < |records| => Unlinked(records[k], questionId))
  }

  /** `NullifyKeepsScores` for every group at once. */
  lemma NullifyKeepsAllScores(records: seq<Record>, questionId: nat)
    ensures forall g :: GroupQuestionSum(NullifyQuestion(records, questionId), g) == GroupQuestionSum(records, g)
    ensures forall g :: GroupTotals(NullifyQuestion(records, questionId), g) == GroupTotals(records, g)
  {
    forall g ensures GroupQuestionSum(NullifyQuestion(records, questionId), g) == GroupQuestionSum(records, g)
               && GroupTotals(NullifyQuestion(records, questionId), g) == GroupTotals(records, g)
    {
      NullifyKeepsScores(records, questionId, g);
    }
  }

  /** Past scores survive a question delete: every group keeps its per-question sum and its totals. */
  lemma {:induction false} NullifyKeepsScores(records: seq<Record>, questionId: nat, g: nat)
    ensures GroupQuestionSum(NullifyQuestion(records, questionId), g) == GroupQuestionSum(records, g)
    ensures GroupTotals(NullifyQuestion(records, questionId), g) == GroupTotals(records, g)
  {
    if records != [] {
      var n := |records| - 1;
      var nulled := NullifyQuestion(records, questionId);
      NullifyKeepsScores(records[..n], questionId, g);
      assert nulled[..n] == NullifyQuestion(records[..n], questionId);
      assert nulled[n] == Unlinked(records[n], questionId);
    }
  }
}
