# Quiz scoring core, modelled in Dafny

This project models the test-taking core of an English quiz web application
(`main/views.py`). Students answer the questions of a test one at a time. Each answer
is stored as a pending submission (UserTestSubmission). Finalizing a test turns that
user's pending submissions into permanent score records (TestRecords). Every finalize
makes one per-question record for each answer plus one total record. All records of a
finalize share a group id taken from a process-wide counter
(`TestRecordView.activation_counter`), and they hang off a new session row (Sessions).
The pending rows are then deleted.

Teachers add and delete questions; both store the test's live question count in
`total_questions`. Students join classrooms by name and password.

Option names are stored with the option's own primary key appended in decimal. The
profile page strips as many trailing characters as the key has digits
(`remove_digits_from_end`, which is Python's `s[:-k]`).

Module layout:

- `Wrappers`: `Option` and `Result`.
- `Tables`: the rows as datatypes, and the pure functions over the ledger tables.
  These are the pending filter, the deletions, score sums, the records of one
  finalize and per-group sums, the question count, and the cascade of a question
  delete.
- `Labels`: decimal key strings, `remove_digits_from_end` with full Python slice
  semantics, and the option-label loop.
- `Queries`: delivery of rows in an arbitrary (shuffled) order, and the session
  lookups of `OnlySessionsViewSet`.
- `Invariants`: the store's consistency over its tables as values, and what keeps it.
- `Store`: class `QuizStore`. Its fields are the tables, the counter and the key
  counters. It has one method per view.

Content tables (tests, questions, options, classrooms) are maps from primary key to
row. Ledger tables (submissions, records, sessions) are sequences kept in insertion
order, and the model iterates a queryset in that order. This is one possible iteration
order of an unordered queryset, not one the database promises. A Django `.get` that finds
nothing or more than one row is a `Failure` result, and the store is left unchanged.

## Model

| member | source | states |
|---|---|---|
| Labels.RemoveDigitsFromEnd | main/views.py:183-187 | `s[:-k]` never fails: the result is a prefix of `s`. For k >= 1 it drops the last k characters, or all of them when k > len(s). For k == 0 it is empty. For k < 0 it keeps the first min(-k, len(s)) characters. |
| Labels.DecimalString | main/views.py:304 | `str(pk)` is a non-empty string of decimal digits without a leading zero (except for 0 itself), so its length `len(str(pk))` is fixed. It has one character exactly when pk < 10. |
| Labels.DecimalStringValue | main/views.py:304 | Reading `str(n)` back as a decimal number gives n. |
| Labels.DecimalStringInjective | main/views.py:304 | Distinct keys have distinct digit strings, so the suffix identifies the option. |
| Labels.EncodedName | main/views.py:303-305 | The stored name is the display text followed by the key's digits: it starts with the display text, the rest is exactly `str(pk)`, and its length is the sum of the two. |
| Labels.DecodeEncodedName | main/views.py:304-305 | Round trip: stripping `len(str(pk))` characters from `display + str(pk)` gives back `display`. |
| Labels.DisplayLabel | main/views.py:304-305 | The label of an option is a prefix of its stored name. It is shorter by exactly the key's digit count, or empty when the name is shorter than that. The label followed by the stripped tail is the name again. |
| Labels.LabelOptions | main/views.py:301-306 | The loop produces one entry per option, in the same order. Each entry pairs the option with the label decoded from its own name and key. |
| Labels.LabelsRecoverDisplayTexts | main/views.py:301-306 | When every option was stored with the encoding, the labels the loop produces are exactly the display texts. |
| Queries.InSomeOrder | main/views.py:92-94 | `list` then `shuffle`: every row appears exactly once. The length equals the number of rows, and nothing else appears. |
| Queries.SessionsWithIds | main/views.py:51 | `Sessions.objects.filter(id__in=ids)` returns exactly the sessions whose key is in the set, never more rows than the table has. It keeps increasing keys increasing. |
| Queries.SessionsByTest | main/views.py:45-56 | A session is returned iff some record of the test refers to it. Each session is returned once. |
| Queries.SessionsByTestAndUser | main/views.py:58-69 | A session is returned iff some record of the test and the user refers to it. Each session is returned once. |
| Tables.PendingOf | main/views.py:635 | The pending rows of (user, test) are exactly the submissions with that user and test, and never more rows than the table has. |
| Tables.PendingOfCounts | main/views.py:635 | Every copy counts: a row of (user, test) occurs in the pending rows as often as in the table, so a question answered twice contributes two rows. Other rows occur zero times. |
| Tables.WithoutPending | main/views.py:679 | Deleting the pending rows keeps exactly the other submissions. Kept plus deleted rows equal the table's length. |
| Tables.WithoutPendingCounts | main/views.py:679 | The delete keeps every copy of every row of another (user, test), as often as the table had it, and no row of the pair. |
| Tables.WithoutUser | main/views.py:698-701 | Deleting a user's submissions keeps exactly the other users' rows. |
| Tables.WithoutUserCounts | main/views.py:698-701 | The reset keeps every copy of every other user's rows, as often as the table had it, and no row of the user. |
| Tables.SumScoresBounded | main/views.py:664-665 | With a score of 0 or 1 per answer, the total is at most the number of answers. |
| Tables.PerQuestionRecords | main/views.py:641-661 | One record per pending submission, in order. The k-th has id firstId + k. |
| Tables.FinalizeRecords | main/views.py:641-674 | A finalize writes one per-question record per pending submission, then one total record. All have consecutive ids, the same user, test, group and session. Each per-question record carries its submission's score. |
| Tables.PerQuestionSum | main/views.py:641-665 | The per-question records of a finalize add up to the sum of the consumed scores and contain no total record. |
| Tables.FinalizedGroupBalanced | main/views.py:628-674 | After a finalize whose group id is above every earlier record's group, that group has exactly one total record. Its value equals the sum of the group's per-question scores. |
| Tables.NothingPendingAfterDelete | main/views.py:679 | After the delete, nothing is pending for (user, test). A second finalize therefore consumes nothing and records a total of 0. |
| Tables.FinalizeRecordsBelow | main/views.py:641-674 | A finalize keeps every record id below the next id and every group id at most the counter. |
| Tables.QuestionCountAfterInsert | main/views.py:471-476 | Saving a new question raises its test's count by one. |
| Tables.QuestionCountAfterRemove | main/views.py:497-500 | Deleting a question lowers its test's count by one. |
| Tables.WithoutQuestion | main/views.py:497 | The cascade keeps exactly the submissions that do not answer the deleted question. |
| Tables.WithoutQuestionCounts | main/views.py:497 | The cascade keeps every copy of every submission answering another question, as often as the table had it. |
| Tables.NullifyQuestion | main/views.py:497 | Records survive a question delete row for row, with the same key, user, test, group and session. A per-question record stays one and keeps its copied question name, option name and score. A record not linked to the deleted question is unchanged, and afterwards no record links the deleted question. |
| Tables.NullifyKeepsScores | main/views.py:497 | Past scores survive a question delete: every group keeps its per-question score sum and its total records. |
| Invariants.CascadeDeleteKeepsValid | main/views.py:493-501 | A question delete, with its cascade and recount, keeps the store consistent. Keys match ids, foreign keys resolve, and ids and groups stay below their counters. |
| Invariants.FinalizeKeepsValid | main/views.py:641-674 | Appending a finalize's records keeps the store consistent with the advanced record key. |
| Store.WrongAnswerMessage | main/views.py:615-618 | The wrong-answer reply differs from the correct-answer reply and ends with the correct option's name. |
| Store.TotalScoreMessage | main/views.py:684 | The reply reads `Total score: ` then the total's digits, `/`, the question count's digits, then `!`. |
| Store.FreshKey | main/views.py:471-473 | An auto-assigned key is above every existing key. |
| Store.WriteQuestionRecords | main/views.py:641-661 | The loop writes exactly the per-question records and collects their ids, which are consecutive. |
| Store.WriteRecords | main/views.py:641-677 | Everything a finalize writes to the records table, with the list of ids it returns: firstId, firstId+1, ... |
| Store.QuizStore.constructor | main/views.py:690 | The store starts consistent, with no pending rows, records or sessions, and with the counter at 0. |
| Store.QuizStore.SubmitAnswer | main/views.py:595-619 | Success iff the test, the question within it, the selected option within the question and exactly one correct option exist. Each failed lookup has its own error, in the view's lookup order, and changes nothing; no correct option and several correct options are told apart. On success exactly one submission is appended, scoring 1 iff the selected option is correct. The reply is "Correct answer" iff it is correct. Otherwise the reply names the correct option. |
| Store.QuizStore.Finalize | main/views.py:622-689 | A missing test changes nothing. Otherwise the counter rises by one to a new group id and one session is appended. The records table grows by exactly FinalizeRecords of the pending rows. The pending rows are deleted and all others kept. The ids returned are consecutive. The reply carries the sum of the consumed scores and the test's stored question count. The new group is balanced, and nothing is left pending. Since every stored answer scores 0 or 1, the reported total is at most the number of answers consumed. |
| Store.QuizStore.OpenSession | main/views.py:628-632 | The counter rises by one and becomes the group id. One session with the next key is appended. |
| Store.QuizStore.RecordScores | main/views.py:641-677 | The records grow by exactly the finalize's records and the record key advances past them. The group's totals are one value equal to its per-question sum. |
| Store.QuizStore.DeletePending | main/views.py:679 | The pending rows of (user, test) are removed, leaving nothing pending, and every other row keeps its number of copies. |
| Store.QuizStore.ResetSubmissions | main/views.py:693-710 | Every pending row of the user is deleted and every other user's row keeps its number of copies. |
| Store.QuizStore.CreateQuestion | main/views.py:466-486 | A missing test and an invalid form fail, in that order, and change nothing. Otherwise one question with a fresh key is added. Its test's `total_questions` becomes the live count, which has risen by one. |
| Store.QuizStore.DeleteQuestion | main/views.py:489-505 | A missing question fails and changes nothing. Otherwise the question, its options and its submissions go, and its records are kept with the link cleared. Every group's scores and totals are unchanged. Its test's `total_questions` becomes the live count, which has fallen by one. |
| Store.QuizStore.JoinClassroom | main/views.py:202-223 | An invalid form, no classroom of that name, or several classrooms of that name each change nothing. The student is added iff exactly one classroom has the name and its stored password equals the given one. Only that classroom's students change. |
| Store.QuizStore.QuestionsByTest | main/views.py:89-98 | Returns exactly the test's questions, each once, as many as the test's live question count. |
| Store.QuizStore.ProfileOptionLabels | main/views.py:296-306 | Every option appears, nothing else does, and there is one entry per option. Each entry's label is its name with the key's digits stripped. |

## Left out

- The HTTP layer is not modelled: request parsing and JSON bodies, redirects, rendered templates, flash messages and response status codes. Results are returned as `Result`/`JoinOutcome` values instead.
- The payload fields (`selected_option`, classroom name and password, the question form's data) arrive as parameters. Form validation (`is_valid()`) is a boolean parameter.
- The signed-in user (`request.user`) and the student profile (`request.user.student`) are parameters. A user without a student profile, which would raise, is not modelled.
- The timestamp of a session is an opaque string parameter. The view formats `timezone.now()` to the minute and passes it in, but accounts/models.py:24 declares the field with `auto_now_add=True`, so Django discards that value and stores the row's creation time. The parameter stands for that creation time.
- Randomness: `shuffle` is modelled only as "some permutation of the rows". The distribution is not modelled.
- Concurrency, transactions and multiple server processes are not modelled. `activation_counter` lives in one store that handles one request at a time. Its reset to 0 when a process restarts, while records persist, is not modelled either: the store starts with empty ledgers.
- main/models.py is not part of this model. The cascade of a question delete is taken as: options and submissions of the question are deleted, and records keep their row with the question link cleared.
- Session `user` is stored as the username string (`str(request.user)`).
- The plain CRUD viewsets, the sign-up and account views, the picture and audio streaming views, the profile page's other queries and the frontend components are not modelled.
- Store.QuizStore.ProfileOptionLabels: the display text the option was created with is not stored in the model, so the contract states the stripped label, not equality with that text. `Labels.LabelsRecoverDisplayTexts` gives the equality for encoded names.
- Labels.RemoveDigitsFromEnd: a stored name shorter than its key's digit count is not rejected: the slice yields a shorter or empty label, and the model follows the code.
- Store.QuizStore.SubmitAnswer: the wrong-answer reply quotes the correct option's stored name, which still carries the key digits, as the view does.
- Store.QuizStore.JoinClassroom: several classrooms with the same name make `.get` raise an uncaught error in the view. Here that is the `SeveralClassrooms` outcome with nothing changed.
- Store.QuizStore.SubmitAnswer: the lookup errors of `.get` (uncaught exceptions in the view) are `Failure` values with nothing changed.
- Iteration order of querysets: the model fixes the table's insertion order as the order in which `TestRecordView` visits the pending rows, so the pairing of record ids with submissions is one possible outcome. An ordering that main/models.py might declare is not modelled.
