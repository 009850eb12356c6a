/**
 * The test-taking and scoring views, as methods on one in-memory store that holds the
 * database tables they read and write, plus `TestRecordView.activation_counter`.
 * One store stands for one server process handling one request at a time.
 */
module Store {
  import opened Wrappers
  import opened Tables
  import Labels
  import Queries
  import opened Invariants

  /** The ways a view fails: a `.get`/`get_object_or_404` that finds nothing or too much, or an invalid form. */
  datatype Error =
    | TestNotFound
    | QuestionNotFound
    | OptionNotFound
    | NoCorrectOption        // `.get(question=..., is_correct=True)` finds no option
    | SeveralCorrectOptions  // ... or more than one
    | InvalidForm

  /** How `ClassroomJoinView` ends; only `Joined` changes anything. */
  datatype JoinOutcome =
    | Joined
    | FormNotValid
    | InvalidPassword
    | ClassroomNotFound
    | SeveralClassrooms      // `.get(name=...)` matches more than one classroom

  /** The JSON body of a successful finalize. */
  datatype RecordReply = RecordReply(message: string, testRecordIds: seq<nat>)

  const CorrectAnswerMessage: string := "Correct answer"

  /** The reply to a wrong answer; it quotes the correct option's stored name. */
  function WrongAnswerMessage(correctName: string): (m: string)
    ensures m != CorrectAnswerMessage
    ensures |correctName| < |m| && m[|m| - |correctName|..] == correctName
  {
    "AMAI!\nCorrect option: " + correctName
  }

  /** `f'Total score: {total_score}/{total_questions}!'`. */
  function TotalScoreMessage(total: nat, totalQuestions: nat): (m: string)
    ensures |m| == 15 + |Labels.DecimalString(total)| + |Labels.DecimalString(totalQuestions)|
    ensures var t := Labels.DecimalString(total);
            && m[..13] == "Total score: "
            && m[13..13 + |t|] == t
            && m[13 + |t|] == '/'
            && m[14 + |t|..|m| - 1] == Labels.DecimalString(totalQuestions)
            && m[|m| - 1] == '!'
  {
    "Total score: " + Labels.DecimalString(total) + "/" + Labels.DecimalString(totalQuestions) + "!"
  }

  /** The four lookups of `TestAnswerView` all succeed. */
  predicate AnswerAccepted(tests: map<nat, Test>, questions: map<nat, Question>, options: map<nat, AnswerOption>,
                           testId: nat, questionId: nat, selectedOptionId: nat)
  {
    && testId in tests
    && questionId in questions && questions[questionId].testId == testId
    && selectedOptionId in options && options[selectedOptionId].questionId == questionId
    && |CorrectOptionKeys(options, questionId)| == 1
  }

  /** Keys of the classrooms called `name`: `Classroom.objects.filter(name=name)`. */
  function ClassroomsNamed(classrooms: map<nat, Classroom>, name: string): set<nat>
  {
    set k: nat | k in classrooms && classrooms[k].name == name
  }

  /** A key above every key of a table, as an auto-increment column hands out. */
  method FreshKey<T>(m: map<nat, T>) returns (k: nat)
    ensures forall j :: j in m ==> j < k
  {
    k := 0;
    var rest := m.Keys;
    while rest != {}
      invariant rest <= m.Keys
      invariant forall j :: j in m && j !in rest ==> j < k
      decreases |rest|
    {
      var j :| j in rest;
      if k <= j {
        k := j + 1;
      }
      rest := rest - {j};
    }
  }

  /**
   * The loop of `TestRecordView.post` over the pending submissions: one per-question
   * record each, with consecutive ids from `firstId`, and the list of those ids.
   */
  method WriteQuestionRecords(pending: seq<Submission>, options: map<nat, AnswerOption>, questions: map<nat, Question>,
                              firstId: nat, user: nat, testId: nat, groupId: nat, sessionId: nat)
    returns (written: seq<Record>, ids: seq<nat>)
    requires forall s :: s in pending ==> Resolves(s, options, questions)
    ensures written == PerQuestionRecords(pending, options, questions, firstId, user, testId, groupId, sessionId)
    ensures ids == seq(|pending|, k => firstId + k)
  {
    written, ids := [], [];
    var i := 0;
    while i < |pending|
      invariant 0 <= i <= |pending|
      invariant written == PerQuestionRecords(pending[..i], options, questions, firstId, user, testId, groupId, sessionId)
      invariant ids == seq(i, k => firstId + k)
    {
      var s := pending[i];
      assert s in pending;
      var option := options[s.selectedOptionId];
      var record := QuestionRecord(firstId + i, user, testId, Some(s.questionId),
                                   questions[option.questionId].name, option.name, s.score, groupId, sessionId);
      assert pending[..i + 1] == pending[..i] + [s];
      written := written + [record];
      ids := ids + [firstId + i];
      i := i + 1;
    }
    assert pending[..i] == pending;
  }

  /**
   * Everything `TestRecordView.post` writes to the records table: the per-question
   * records, then the total record with the next id; and their ids in order of writing.
   */
  method WriteRecords(pending: seq<Submission>, options: map<nat, AnswerOption>, questions: map<nat, Question>,
                      firstId: nat, user: nat, testId: nat, groupId: nat, sessionId: nat)
    returns (written: seq<Record>, ids: seq<nat>)
    requires forall s :: s in pending ==> Resolves(s, options, questions)
    ensures written == FinalizeRecords(pending, options, questions, firstId, user, testId, groupId, sessionId)
    ensures ids == seq(|pending| + 1, k => firstId + k)
  {
    written, ids := WriteQuestionRecords(pending, options, questions, firstId, user, testId, groupId, sessionId);
    written := written + [TotalRecord(firstId + |pending|, user, testId, SumScores(pending), groupId, sessionId)];
    ids := ids + [firstId + |pending|];
  }

  class QuizStore {
    var tests: map<nat, Test>
    var questions: map<nat, Question>
    var options: map<nat, AnswerOption>
    var classrooms: map<nat, Classroom>
    var submissions: seq<Submission>
    var records: seq<Record>
    var sessions: seq<Session>
    /** `TestRecordView.activation_counter`: the last group id handed out. */
    var activationCounter: nat
    var nextQuestionId: nat
    var nextRecordId: nat
    var nextSessionId: nat

    /** Keys are the rows' ids, foreign keys resolve, and every key and group id handed out is below its counter. */
    ghost predicate Valid()
      reads this
    {
      TablesValid(tests, questions, options, classrooms, submissions, records, sessions,
                  nextQuestionId, nextRecordId, activationCounter, nextSessionId)
    }

    /** The content tables as loaded; the ledgers start empty and the counter at 0, as at process start. */
    constructor (tests: map<nat, Test>, questions: map<nat, Question>, options: map<nat, AnswerOption>,
                 classrooms: map<nat, Classroom>)
      requires forall k :: k in tests ==> tests[k].id == k
      requires forall k :: k in questions ==> questions[k].id == k && questions[k].testId in tests
      requires forall k :: k in options ==> options[k].id == k
      requires forall k :: k in classrooms ==> classrooms[k].id == k
      ensures Valid()
      ensures this.tests == tests && this.questions == questions && this.options == options
      ensures this.classrooms == classrooms
      ensures submissions == [] && records == [] && sessions == [] && activationCounter == 0
    {
      var next := FreshKey(questions);
      this.tests := tests;
      this.questions := questions;
      this.options := options;
      this.classrooms := classrooms;
      submissions := [];
      records := [];
      sessions := [];
      activationCounter := 0;
      nextQuestionId := next;
      nextRecordId := 0;
      nextSessionId := 0;
    }

    /**
     * `TestAnswerView.post`: look up the test, the question within it, the selected option
     * within the question and the one correct option; then append one submission.
     */
    method SubmitAnswer(user: User, testId: nat, questionId: nat, selectedOptionId: nat)
      returns (res: Result<string, Error>)
      requires Valid()
      modifies this`submissions
      ensures Valid()
      ensures res.Success? <==> AnswerAccepted(tests, questions, options, testId, questionId, selectedOptionId)
      ensures testId !in tests ==> res == Failure(TestNotFound)
      ensures testId in tests && !(questionId in questions && questions[questionId].testId == testId)
              ==> res == Failure(QuestionNotFound)
      ensures testId in tests && questionId in questions && questions[questionId].testId == testId
              && !(selectedOptionId in options && options[selectedOptionId].questionId == questionId)
              ==> res == Failure(OptionNotFound)
      ensures res.Failure? ==> submissions == old(submissions)
      ensures testId in tests && questionId in questions && questions[questionId].testId == testId
              && selectedOptionId in options && options[selectedOptionId].questionId == questionId
              ==> (res == Failure(NoCorrectOption) <==> CorrectOptionKeys(options, questionId) == {})
                  && (res == Failure(SeveralCorrectOptions) <==> |CorrectOptionKeys(options, questionId)| > 1)
      ensures res == Failure(NoCorrectOption) ==> CorrectOptionKeys(options, questionId) == {}
      ensures res == Failure(SeveralCorrectOptions) ==> |CorrectOptionKeys(options, questionId)| > 1
      ensures res.Success? ==>
        var selected := options[selectedOptionId];
        && submissions == old(submissions) + [Submission(user.id, testId, questionId, selectedOptionId,
                                                          if selected.isCorrect then 1 else 0)]
        && (res.value == CorrectAnswerMessage <==> selected.isCorrect)
        && (!selected.isCorrect ==>
              res.value == WrongAnswerMessage(options[TheOne(CorrectOptionKeys(options, questionId))].name))
    {
      if testId !in tests {
        return Failure(TestNotFound);
      }
      if !(questionId in questions && questions[questionId].testId == testId) {
        return Failure(QuestionNotFound);
      }
      if !(selectedOptionId in options && options[selectedOptionId].questionId == questionId) {
        return Failure(OptionNotFound);
      }
      var correctKeys := CorrectOptionKeys(options, questionId);
      if |correctKeys| == 0 {
        return Failure(NoCorrectOption);
      }
      if |correctKeys| > 1 {
        return Failure(SeveralCorrectOptions);
      }
      var correct :| correct in correctKeys;
      OnlyOne(correctKeys, correct);
      var selected := options[selectedOptionId];
      var score := if selected.isCorrect then 1 else 0;
      submissions := submissions + [Submission(user.id, testId, questionId, selectedOptionId, score)];
      if selected.isCorrect {
        res := Success(CorrectAnswerMessage);
      } else {
        res := Success(WrongAnswerMessage(options[correct].name));
      }
    }

    /**
     * `TestRecordView.post`: 404 on a missing test; otherwise bump the counter for a new
     * group id, open a session, write one record per pending submission of (user, test)
     * and one total record, and delete those submissions.
     */
    method Finalize(user: User, testId: nat, timestamp: string) returns (res: Result<RecordReply, Error>)
      requires Valid()
      modifies this`activationCounter, this`sessions, this`nextSessionId, this`records, this`nextRecordId,
               this`submissions
      ensures Valid()
      ensures res.Failure? <==> testId !in tests
      ensures res.Failure? ==> res.error == TestNotFound && unchanged(this)
      ensures res.Success? ==>
        var pending := PendingOf(old(submissions), user.id, testId);
        var g := old(activationCounter) + 1;
        && activationCounter == g
        && sessions == old(sessions) + [Session(old(nextSessionId), tests[testId].name, user.username, testId, timestamp)]
        && records == old(records) + FinalizeRecords(pending, options, questions, old(nextRecordId),
                                                     user.id, testId, g, old(nextSessionId))
        && submissions == WithoutPending(old(submissions), user.id, testId)
        && res.value.testRecordIds == seq(|pending| + 1, k => old(nextRecordId) + k)
        && res.value.message == TotalScoreMessage(SumScores(pending), tests[testId].totalQuestions)
        // the group is new and balanced, and nothing is left pending for (user, test)
        && (forall r :: r in old(records) ==> r.groupId < g)
        && GroupTotals(records, g) == [SumScores(pending)]
        && GroupQuestionSum(records, g) == SumScores(pending)
        && PendingOf(submissions, user.id, testId) == []
        // each answer scores at most 1, so the total never exceeds the number of answers
        && SumScores(pending) <= |pending|
    {
      if testId !in tests {
        return Failure(TestNotFound);
      }
      var test := tests[testId];
      var totalQuestions := test.totalQuestions;
      var groupId, session := OpenSession(user, test, timestamp);
      var pending := PendingOf(submissions, user.id, testId);
      assert pending == PendingOf(old(submissions), user.id, testId);
      SumScoresBounded(pending);
      var ids := RecordScores(user, testId, pending, groupId, session.id);
      DeletePending(user, testId);
      assert session.id == old(nextSessionId) && test.id == testId;
      res := Success(RecordReply(TotalScoreMessage(SumScores(pending), totalQuestions), ids));
    }

    /** `TestRecordView.activation_counter += 1`, then `Sessions.objects.create(...)` for the test. */
    method OpenSession(user: User, test: Test, timestamp: string) returns (groupId: nat, session: Session)
      requires Valid()
      modifies this`activationCounter, this`sessions, this`nextSessionId
      ensures Valid()
      ensures groupId == activationCounter == old(activationCounter) + 1
      ensures session == Session(old(nextSessionId), test.name, user.username, test.id, timestamp)
      ensures sessions == old(sessions) + [session]
      ensures nextSessionId == old(nextSessionId) + 1
    {
      activationCounter := activationCounter + 1;
      groupId := activationCounter;
      session := Session(nextSessionId, test.name, user.username, test.id, timestamp);
      Queries.AppendSession(sessions, session, nextSessionId);
      sessions := sessions + [session];
      nextSessionId := nextSessionId + 1;
    }

    /**
     * The records of one finalize: one per pending submission, then the total, all in
     * group `groupId` and session `sessionId`; returns their ids in order of writing.
     */
    method RecordScores(user: User, testId: nat, pending: seq<Submission>, groupId: nat, sessionId: nat)
      returns (ids: seq<nat>)
      requires Valid()
      requires forall s :: s in pending ==> s in submissions
      requires groupId == activationCounter && forall r :: r in records ==> r.groupId < groupId
      modifies this`records, this`nextRecordId
      ensures Valid()
      ensures records == old(records) + FinalizeRecords(pending, options, questions, old(nextRecordId),
                                                        user.id, testId, groupId, sessionId)
      ensures nextRecordId == old(nextRecordId) + |pending| + 1
      ensures ids == seq(|pending| + 1, k => old(nextRecordId) + k)
      ensures GroupTotals(records, groupId) == [SumScores(pending)]
      ensures GroupQuestionSum(records, groupId) == SumScores(pending)
    {
      var firstId := nextRecordId;
      var written;
      written, ids := WriteRecords(pending, options, questions, firstId, user.id, testId, groupId, sessionId);
      FinalizedGroupBalanced(records, pending, options, questions, firstId, user.id, testId, groupId, sessionId);
      FinalizeKeepsValid(tests, questions, options, classrooms, submissions, records, sessions,
                         nextQuestionId, firstId, activationCounter, nextSessionId, pending, user.id, testId, sessionId);
      records := records + written;
      nextRecordId := firstId + |pending| + 1;
    }

    /** `user_test_submissions.delete()`: drop the pending rows of (user, test), keep all others. */
    method DeletePending(user: User, testId: nat)
      requires Valid()
      modifies this`submissions
      ensures Valid()
      ensures submissions == WithoutPending(old(submissions), user.id, testId)
      ensures PendingOf(submissions, user.id, testId) == []
      ensures forall s: Submission :: !(s.user == user.id && s.testId == testId) ==>
        multiset(submissions)[s] == multiset(old(submissions))[s]
    {
      WithoutPendingCounts(submissions, user.id, testId);
      PendingResolves(submissions, user.id, testId, options, questions);
      NothingPendingAfterDelete(submissions, user.id, testId);
      submissions := WithoutPending(submissions, user.id, testId);
    }

    /** `TestsubmissionsDeleteView.post`: delete every pending submission of the user, of any test. */
    method ResetSubmissions(user: User)
      requires Valid()
      modifies this`submissions
      ensures Valid()
      ensures submissions == WithoutUser(old(submissions), user.id)
      ensures forall s :: s in submissions ==> s.user != user.id
      ensures forall s: Submission :: s.user != user.id ==> multiset(submissions)[s] == multiset(old(submissions))[s]
    {
      WithoutUserCounts(submissions, user.id);
      submissions := WithoutUser(submissions, user.id);
    }

    /**
     * `QuestionCreateView.post`: 404 on a missing test, 400 on an invalid form; otherwise
     * add the question and store the test's live question count in `total_questions`.
     */
    method CreateQuestion(testId: nat, name: string, formValid: bool) returns (res: Result<nat, Error>)
      requires Valid()
      modifies this`questions, this`nextQuestionId, this`tests
      ensures Valid()
      ensures testId !in old(tests) ==> res == Failure(TestNotFound)
      ensures testId in old(tests) && !formValid ==> res == Failure(InvalidForm)
      ensures res.Failure? ==> unchanged(this)
      ensures res.Success? <==> testId in old(tests) && formValid
      ensures res.Success? ==>
        && res.value !in old(questions)
        && questions == old(questions)[res.value := Question(res.value, testId, name)]
        && tests == old(tests)[testId := old(tests)[testId].(totalQuestions := QuestionCount(questions, testId))]
        && QuestionCount(questions, testId) == QuestionCount(old(questions), testId) + 1
    {
      if testId !in tests {
        return Failure(TestNotFound);
      }
      if !formValid {
        return Failure(InvalidForm);
      }
      var id := nextQuestionId;
      QuestionCountAfterInsert(questions, Question(id, testId, name));
      questions := questions[id := Question(id, testId, name)];
      nextQuestionId := nextQuestionId + 1;
      var totalQuestions := QuestionCount(questions, testId);
      tests := tests[testId := tests[testId].(totalQuestions := totalQuestions)];
      res := Success(id);
    }

    /**
     * `QuestionDeleteView.post`: 404 on a missing question; otherwise delete it together
     * with its options and the submissions answering it, clear the question link of its
     * records, and store the test's live question count in `total_questions`.
     */
    method DeleteQuestion(questionId: nat) returns (res: Result<nat, Error>)
      requires Valid()
      modifies this`questions, this`options, this`submissions, this`records, this`tests
      ensures Valid()
      ensures res.Failure? <==> questionId !in old(questions)
      ensures res.Failure? ==> res.error == QuestionNotFound && unchanged(this)
      ensures res.Success? ==>
        var testId := old(questions)[questionId].testId;
        && res.value == questionId
        && questions == old(questions) - {questionId}
        && options == WithoutOptionsOf(old(options), questionId)
        && submissions == WithoutQuestion(old(submissions), questionId)
        && records == NullifyQuestion(old(records), questionId)
        && tests == old(tests)[testId := old(tests)[testId].(totalQuestions := QuestionCount(questions, testId))]
        && QuestionCount(questions, testId) == QuestionCount(old(questions), testId) - 1
        // past scores survive: every group keeps its per-question sum and its totals
        && (forall g :: GroupQuestionSum(records, g) == GroupQuestionSum(old(records), g))
        && (forall g :: GroupTotals(records, g) == GroupTotals(old(records), g))
    {
      if questionId !in questions {
        return Failure(QuestionNotFound);
      }
      NullifyKeepsAllScores(records, questionId);
      var testId := questions[questionId].testId;
      var questions' := questions - {questionId};
      var options' := WithoutOptionsOf(options, questionId);
      var submissions' := WithoutQuestion(submissions, questionId);
      var records' := NullifyQuestion(records, questionId);
      var tests' := tests[testId := tests[testId].(totalQuestions := QuestionCount(questions', testId))];
      QuestionCountAfterRemove(questions, questionId);
      CascadeDeleteKeepsValid(tests, questions, options, classrooms, submissions, records, sessions,
                              nextQuestionId, nextRecordId, activationCounter, nextSessionId, questionId, testId);
      questions, options, submissions, records, tests := questions', options', submissions', records', tests';
      res := Success(questionId);
    }

    /**
     * `ClassroomJoinView.post`: with a valid form, the student is enrolled only when exactly
     * one classroom has the given name and its stored password equals the given one exactly.
     */
    method JoinClassroom(studentId: nat, name: string, password: string, formValid: bool) returns (outcome: JoinOutcome)
      requires Valid()
      modifies this`classrooms
      ensures Valid()
      ensures ClassroomsNamed(classrooms, name) == ClassroomsNamed(old(classrooms), name)
      ensures outcome == FormNotValid <==> !formValid
      ensures outcome == ClassroomNotFound <==> formValid && ClassroomsNamed(old(classrooms), name) == {}
      ensures outcome == SeveralClassrooms <==> formValid && |ClassroomsNamed(old(classrooms), name)| > 1
      ensures outcome == Joined <==>
        formValid && |ClassroomsNamed(old(classrooms), name)| == 1
        && old(classrooms)[TheOne(ClassroomsNamed(old(classrooms), name))].hashedPassword == password
      ensures outcome != Joined ==> classrooms == old(classrooms)
      ensures outcome == Joined ==>
        var k := TheOne(ClassroomsNamed(old(classrooms), name));
        classrooms == old(classrooms)[k := old(classrooms)[k].(students := old(classrooms)[k].students + {studentId})]
    {
      if !formValid {
        return FormNotValid;
      }
      var named := ClassroomsNamed(classrooms, name);
      if |named| == 0 {
        return ClassroomNotFound;
      }
      if |named| > 1 {
        return SeveralClassrooms;
      }
      var k :| k in named;
      OnlyOne(named, k);
      var classroom := classrooms[k];
      if classroom.hashedPassword == password {
        classrooms := classrooms[k := classroom.(students := classroom.students + {studentId})];
        outcome := Joined;
      } else {
        outcome := InvalidPassword;
      }
    }

    /** `TestQuestionViewSet.get_questions_by_test`: the test's questions, each once, in shuffled order. */
    method QuestionsByTest(testId: nat) returns (qs: seq<Question>)
      requires Valid()
      ensures forall q :: q in qs <==> q in questions.Values && q.testId == testId
      ensures Queries.Distinct(qs)
      ensures |qs| == QuestionCount(questions, testId)
    {
      var keys := QuestionKeys(questions, testId);
      assert forall k :: k in keys <==> k in questions && questions[k].testId == testId;
      var order := Queries.InSomeOrder<nat>(keys);
      var table := questions;
      qs := seq(|order|, i requires 0 <= i < |order| => table[order[i]]);
      forall q | q in questions.Values && q.testId == testId
        ensures q in qs
      {
        var k :| k in questions && questions[k] == q;
        var i :| 0 <= i < |order| && order[i] == k;
        assert qs[i] == q;
      }
    }

    /**
     * The option loop of `ProfilePageView.post`: all options, shuffled, each paired with
     * the label decoded from its stored name.
     */
    method ProfileOptionLabels() returns (modified: seq<Labels.LabelledOption>)
      requires Valid()
      ensures |modified| == |options|
      ensures forall o :: o in options.Values <==> exists i :: 0 <= i < |modified| && modified[i].option == o
      ensures forall i :: 0 <= i < |modified| ==>
        modified[i].optionName == Labels.DisplayLabel(modified[i].option.name, modified[i].option.id)
    {
      var order := Queries.InSomeOrder<nat>(options.Keys);
      var table := options;
      var shuffled := seq(|order|, i requires 0 <= i < |order| => table[order[i]]);
      modified := Labels.LabelOptions(shuffled);
      assert |options.Keys| == |options|;
      forall i | 0 <= i < |modified|
        ensures modified[i].option in options.Values
      {
        assert modified[i].option == table[order[i]];
      }
      forall o | o in options.Values
        ensures exists i :: 0 <= i < |modified| && modified[i].option == o
      {
        var k :| k in options && options[k] == o;
        var i :| 0 <= i < |order| && order[i] == k;
        assert modified[i].option == o;
      }
    }
  }
}
