# examponybot data layer, modelled in Dafny

examponybot is a quiz-and-peer-review application. Students answer
exam questions and other students review and grade the answers. The
single exam moves between states such as stopped and reviewing.
Everything it knows lives in one database, reached through `DBLayer`. Each kind of record is a Ruby class
whose constructor writes or reads a row: `User`, `Exam`, `Question`,
`UserQuestion`, `Answer`, `UserReview` and `Review`. A few query methods
on those records walk the relations between them.

This project models that entity protocol as the unit tests in
`tests/unittest.rb` fix it:

- The database is the class `Layer.DBLayer`, with one field per table.
  Each table is a sequence of rows.
  - Every row carries a surrogate `id`: its 1-based position, assigned
    at insertion. An id therefore records creation order.
  - `DBLayer.Valid()` states the invariants every method keeps: ids are
    numbered, natural keys are unique, and there is at most one exam.
- Constructors called with a payload change the database. They are
  methods of `DBLayer`:
  - **Upserts**, keyed by a natural key: `User.new(dbl, userid,
    privlevel, username)`, `Question.new(dbl, number, variant, text)`,
    `Answer.new(dbl, uqid, text)` and `Review.new(dbl, revid, grade,
    text)`.
  - **Creates**, which append without deduplicating:
    `UserQuestion.new` and `UserReview.new`.
  - `Exam.new` creates the exam only the first time; later calls get the
    existing one.
  - `exam.set_state` changes the exam's state.
- Each method's new table is stated as a function of the old one
  (`PutUserRows`, `PutQuestionRows`, …). What each method returns:
  - The four upserts return the lookup of their key on the new table.
  - The two creates return the appended row.
  - `PutExam` returns the one exam in the table.
  - `SetExamState` returns the given exam with the new state.
- Key-only constructors and the derived queries only read. They are
  functions over the tables.
  - A key-only lookup of an unknown key differs by entity. For `User` it
    yields a sentinel user (nil id, userid and username; privlevel
    nonexistent). For `Question`, `Answer` and `Review` it raises
    `DBLayerError`, modelled as `Failure(NotFound)`.
  - The derived queries are `is_priviledged`, `nth_question`,
    `n_reviews`, `all_answers`, `is_assigned_userreview`,
    `to_question`, `to_answer` and `all_reviews`.
- The module `UnitTests` restates the test cases:
  - Tests that only upsert, create and look up build their database
    with the `DBLayer` methods. Each asserts the test's expectations as
    its postcondition.
  - The query tests are lemmas over the tables the test's setup leaves.
    Each table is produced, from empty tables, by the setup's operations,
    as a setup lemma shows. The three-assignment table shared by the
    nth_question, all_answers and `answer.to_question` tests comes from
    `NthQuestionSetup`. The one-question table of the `to_question` test
    comes from `AssignmentToQuestion` itself.

Modules, one per file:

| module | file | content |
|---|---|---|
| `Wrappers` | wrappers.dfy | `Option`, `Result` |
| `Store` | store.dfy | generic table lookups (first row with a key), numbering and key uniqueness, and the lemmas about lookups after an update or an append |
| `Entities` | entities.dfy | the rows, the user and exam states, and `DBLayerError` |
| `Users` | users.dfy | the User upsert, the sentinel lookup, and `is_priviledged` |
| `ExamSingleton` | exam.dfy | the single exam and `set_state` |
| `QuestionCatalog` | questions.dfy | the Question upsert and its lookup by `(number, variant)` |
| `AssignmentGraph` | assignments.dfy | UserQuestion, `to_question` and `nth_question` |
| `AnswerStore` | answers.dfy | the Answer upsert, `to_answer`, `answer.to_question` and `all_answers` |
| `ReviewStore` | reviews.dfy | UserReview, the Review upsert, `is_assigned_userreview`, `n_reviews` and `all_reviews` |
| `Layer` | dblayer.dfy | class `DBLayer`: the tables and the methods that change them |
| `UnitTests` | unittests.dfy | the test cases |

Choices the tests leave open:

- Ids are positions from 1.
- An upsert on an existing key returns the row as stored after the
  update.
- When several assignments match, `nth_question` returns the one
  created first.
- A dangling question reference makes `to_question` fail with
  `NotFound`.

Each of these is stated in the contract of the member concerned.

## Model

| member | source | states |
|---|---|---|
| Users.GetUser | tests/unittest.rb:42-47 | The lookup of a userid never fails. If no row has the userid, the result is the sentinel: nil id, userid and username, and privlevel nonexistent. Otherwise the result carries the userid and is a stored row. |
| Users.PutUserThenGet | tests/unittest.rb:17-40 | After an upsert, the lookup of the same userid has the new username. For a known userid it keeps the first id and the first privlevel. For a new userid it has the next id and the given privlevel. |
| Users.PutUserFrame | tests/unittest.rb:17-28 | An upsert keeps the users table valid. It adds a row only for a new userid. No other userid's lookup changes. |
| Users.PutUserPrivilege | tests/unittest.rb:49-56 | After an upsert, `is_priviledged` holds iff the first registration's privlevel was priviledged. An unknown user is never privileged. |
| Users.PutUserRows | tests/unittest.rb:17-40 | The users table after `User.new` with a payload. What it promises is proved by `Users.PutUserThenGet` and `Users.PutUserFrame`. |
| Users.IsPriviledged | tests/unittest.rb:49-56 | `user.is_priviledged`: the privlevel is priviledged. Its value after an upsert is proved by `Users.PutUserPrivilege`. |
| ExamSingleton.PutExamRows | tests/unittest.rb:163-182 | The exam table after `Exam.new`. What it promises is proved by `ExamSingleton.PutExamFirstWins` and `ExamSingleton.LaterNamesIgnored`. |
| ExamSingleton.SetStateRows | tests/unittest.rb:169-173 | The exam table after `set_state`. What it promises is proved by `ExamSingleton.SetStateOnlyState`. |
| ExamSingleton.PutExamFirstWins | tests/unittest.rb:163-167 | After a construction there is exactly one exam, with id 1. A first construction makes it with the given name in state stopped. A later construction leaves the table as it was. |
| ExamSingleton.LaterNamesIgnored | tests/unittest.rb:175-182 | Any sequence of later constructions leaves the exam as the first one made it, including the first name. |
| ExamSingleton.SetStateOnlyState | tests/unittest.rb:169-173 | `set_state` changes the state of the exam with that id. It leaves every id, every name and every other state unchanged. |
| QuestionCatalog.GetQuestion | tests/unittest.rb:238-243 | The lookup fails with NotFound iff no row has that `(number, variant)`. On success it returns a stored row with exactly that pair. |
| QuestionCatalog.QuestionById | tests/unittest.rb:265-272 | The lookup by id fails iff no row has that id. On success it returns a stored row with that id. |
| QuestionCatalog.PutQuestionThenGet | tests/unittest.rb:201-236 | An upsert keeps the catalog valid and grows it only for a new pair. Its pair then looks up to the new text under the first id. Every other pair is unchanged, including another variant of the same number. |
| QuestionCatalog.PutQuestionRows | tests/unittest.rb:201-236 | The catalog after `Question.new` with a payload. What it promises is proved by `QuestionCatalog.PutQuestionThenGet`. |
| QuestionCatalog.QuestionByIdOfStored | tests/unittest.rb:265-272 | In a valid catalog, a stored question's id resolves to that question. |
| AssignmentGraph.ToQuestion | tests/unittest.rb:265-272 | `to_question` returns a stored question with the assignment's question id. It fails iff no question has that id. |
| AssignmentGraph.ToQuestionOfStored | tests/unittest.rb:265-272 | An assignment made for a stored question leads back to that question. |
| AssignmentGraph.CreateUserQuestionRows | tests/unittest.rb:258-263 | The assignment table after `UserQuestion.new`. What it promises is proved by `AssignmentGraph.CreateUserQuestionAppends` and `AssignmentGraph.CreateTwiceDistinct`. |
| AssignmentGraph.AssignsNumber | tests/unittest.rb:58-76 | The `nth_question` match: an assignment of that user in that exam whose question has number n. `AssignmentGraph.NthQuestion` and `AssignmentGraph.NthQuestionIsEarliest` are stated with it. |
| AssignmentGraph.NthQuestion | tests/unittest.rb:58-76 | A result is one of the user's assignments in that exam whose question has number n. None iff no assignment matches. |
| AssignmentGraph.NthQuestionIsEarliest | tests/unittest.rb:58-76 | If any assignment matches, the result is a matching assignment at or before it, and no earlier assignment matches. |
| AssignmentGraph.CreateUserQuestionAppends | tests/unittest.rb:258-263 | A creation appends one row with the next id and the given ids. Every earlier row is kept, and none shares the new id. |
| AssignmentGraph.CreateTwiceDistinct | tests/unittest.rb:258-263 | Two creations with the same arguments give two rows with the same fields but different ids. |
| AnswerStore.GetAnswer | tests/unittest.rb:312-325 | The lookup fails with NotFound iff no answer has that `uqid`. On success it returns a stored answer with that uqid. |
| AnswerStore.PutAnswerThenGet | tests/unittest.rb:312-334 | An upsert keeps the table valid and adds a row only for a new uqid. The uqid then looks up to the new text under the first id. No other uqid's answer changes. |
| AnswerStore.PutAnswerRows | tests/unittest.rb:312-334 | The answers table after `Answer.new` with a payload. What it promises is proved by `AnswerStore.PutAnswerThenGet`. |
| AnswerStore.ToAnswer | tests/unittest.rb:274-286 | `to_answer` is None iff the raising lookup fails. Otherwise it returns what that lookup returns, an answer to that assignment. |
| AnswerStore.AnswerToQuestion | tests/unittest.rb:336-343 | On success the result is a stored question. Some stored assignment has the answer's uqid and refers to that question. |
| AnswerStore.AnswerToQuestionOfStored | tests/unittest.rb:336-343 | An answer to a stored assignment of a stored question leads back to that question. |
| AnswerStore.AllAnswers | tests/unittest.rb:103-132 | `all_answers` is no longer than the assignment table. |
| AnswerStore.AllAnswersSound | tests/unittest.rb:103-132 | Every answer `all_answers` returns is stored and answers one of the user's assignments. |
| AnswerStore.AllAnswersComplete | tests/unittest.rb:103-132 | Every answered assignment of the user contributes its answer. |
| AnswerStore.AllAnswersOrdered | tests/unittest.rb:126-131 | With assignments in creation order, the answers come out in strictly increasing assignment order. |
| AnswerStore.AllAnswersDistinct | tests/unittest.rb:120-124 | In a well-formed assignment table, no two answers `all_answers` returns belong to the same assignment. |
| ReviewStore.IsAssignedUserReview | tests/unittest.rb:134-151 | A true result means some review assignment with that id belongs to the reviewer. With unique ids this is an if-and-only-if. |
| ReviewStore.CreateUserReviewAssigns | tests/unittest.rb:134-151 | A new review assignment belongs to its reviewer and to no one else. Ownership of every other review assignment is unchanged. |
| ReviewStore.CreateUserReviewRows | tests/unittest.rb:390-400 | The review-assignment table after `UserReview.new`. What it promises is proved by `ReviewStore.CreateUserReviewAssigns`. |
| ReviewStore.GetReview | tests/unittest.rb:431-440 | The lookup fails with NotFound iff no Review has that revid. On success it returns a stored Review with that revid. |
| ReviewStore.PutReviewThenGet | tests/unittest.rb:431-456 | An upsert keeps the table valid and adds a row only for a new revid. The revid then looks up to the new grade and text under the first id. No other revid changes. |
| ReviewStore.PutReviewRows | tests/unittest.rb:431-456 | The reviews table after `Review.new` with a payload. What it promises is proved by `ReviewStore.PutReviewThenGet`. |
| ReviewStore.HasReview | tests/unittest.rb:95-100 | A review assignment is done when a Review with its id exists. `ReviewStore.NReviewsNoneDone`, `ReviewStore.NReviewsAllDone` and `ReviewStore.NReviewsAfterPut` are stated with it. |
| ReviewStore.AssignedCount | tests/unittest.rb:88-93 | The number of review assignments the reviewer holds. It bounds `ReviewStore.NReviews`, and `ReviewStore.NReviewsAllDone` reaches it. |
| ReviewStore.NReviews | tests/unittest.rb:78-101 | The count is at most the number of review assignments the reviewer holds. |
| ReviewStore.NReviewsNoneDone | tests/unittest.rb:92-93 | If none of the reviewer's assignments has a Review, the count is 0. |
| ReviewStore.NReviewsAllDone | tests/unittest.rb:95-100 | If all of them have a Review, the count equals the number of assignments. |
| ReviewStore.NReviewsAfterPut | tests/unittest.rb:95-100 | A Review upsert raises the count by one iff its revid is an assignment of the reviewer with no Review yet. Otherwise the count is unchanged. |
| ReviewStore.AllReviews | tests/unittest.rb:345-369 | `all_reviews` is no longer than the review-assignment table. |
| ReviewStore.AllReviewsSound | tests/unittest.rb:345-369 | Every Review it returns is stored and belongs to a review assignment of the answer's assignment. |
| ReviewStore.AllReviewsComplete | tests/unittest.rb:345-369 | Every review assignment of the answer that has a Review contributes it. |
| ReviewStore.AllReviewsOrdered | tests/unittest.rb:363-368 | With review assignments in creation order, the Reviews come out in strictly increasing review-assignment order. |
| ReviewStore.AllReviewsDistinct | tests/unittest.rb:363-368 | In a well-formed review-assignment table, no two Reviews `all_reviews` returns belong to the same review assignment. |
| Layer.DBLayer.constructor | tests/unittest.rb:6-8 | A new database is valid and every table is empty. |
| Layer.DBLayer.PutUser | tests/unittest.rb:10-40 | The users table becomes `PutUserRows` of the old one. The returned user is the new lookup of the userid, with the first id and privlevel for a known userid. A new userid appends its row. The lookup of every other userid is unchanged. |
| Layer.DBLayer.PutExam | tests/unittest.rb:163-182 | The exam table becomes the one exam. A first call creates it stopped, with the given name; a later call returns the existing exam. |
| Layer.DBLayer.SetExamState | tests/unittest.rb:169-173 | The returned exam has the new state. The row with its id takes the new state, and nothing else changes. |
| Layer.DBLayer.PutQuestion | tests/unittest.rb:194-236 | The catalog becomes `PutQuestionRows` of the old one, and the pair now looks up to the returned question. The question keeps its first id or gets the next one. A new pair appends. Every other pair is unchanged. |
| Layer.DBLayer.CreateUserQuestion | tests/unittest.rb:258-263 | Exactly one row is appended, with the next id and the given exam, user and question ids. |
| Layer.DBLayer.PutAnswer | tests/unittest.rb:306-334 | The answers table becomes `PutAnswerRows` of the old one, and the uqid now looks up to the returned answer. A new uqid appends. Every other uqid is unchanged. |
| Layer.DBLayer.CreateUserReview | tests/unittest.rb:390-400 | Exactly one row is appended, with the next id and the given reviewer and assignment, which may belong to the reviewer. |
| Layer.DBLayer.PutReview | tests/unittest.rb:424-456 | The reviews table becomes `PutReviewRows` of the old one, and the revid now looks up to the returned Review. A new revid appends. Every other revid is unchanged. |
| UnitTests.UserConstructor | tests/unittest.rb:10-15 | A new user has the given userid, privlevel and username. |
| UnitTests.GetUserById | tests/unittest.rb:17-28 | Among three users, the lookup of 43 returns its id, userid, privlevel and username. |
| UnitTests.UpdateName | tests/unittest.rb:30-40 | Re-creating user 42 keeps its id and the priviledged level, and changes the username. |
| UnitTests.UnknownUser | tests/unittest.rb:42-47 | The lookup of an unknown userid gives nil userid and username and privlevel nonexistent. |
| UnitTests.UserIsPriviledged | tests/unittest.rb:49-56 | A priviledged user is privileged; a regular one is not. |
| UnitTests.ExamConstructor | tests/unittest.rb:163-167 | A new exam has the given name and is stopped. |
| UnitTests.ExamSetState | tests/unittest.rb:169-173 | After `set_state(reviewing)`, the exam is reviewing. |
| UnitTests.SeveralExams | tests/unittest.rb:175-182 | The third construction returns the exam named by the first. |
| UnitTests.QuestionConstructor | tests/unittest.rb:194-199 | A new question has the given number, variant and text. |
| UnitTests.GetQuestionByKey | tests/unittest.rb:201-210 | The lookup of (2, 1) among three questions returns "bla2". |
| UnitTests.UpdateQuestion | tests/unittest.rb:212-220 | After a second upsert of (1, 1), the lookup returns the new text. |
| UnitTests.UnexpectedNumber | tests/unittest.rb:222-236 | Variants 13 and 1 of number 42 are told apart. |
| UnitTests.UnregisteredQuestion | tests/unittest.rb:238-243 | The lookups of (1, 4) and (4, 1) fail with NotFound. |
| UnitTests.UserQuestionConstructor | tests/unittest.rb:258-263 | A new assignment carries the exam, user and question ids. |
| UnitTests.AnswerConstructor | tests/unittest.rb:306-310 | A new answer carries the assignment id and the text. |
| UnitTests.GetAnswerByAssignment | tests/unittest.rb:312-325 | The answers of assignments 2 and 3 are found with their texts. Assignment 42 fails with NotFound. |
| UnitTests.UpdateAnswer | tests/unittest.rb:327-334 | After a second upsert for assignment 1, the lookup returns the new text. |
| UnitTests.UserReviewConstructor | tests/unittest.rb:390-400 | A review assignment carries the reviewer and assignment ids, also when the reviewer is the assignment's own user. |
| UnitTests.ReviewConstructor | tests/unittest.rb:424-429 | A new Review carries the revid, grade and text. |
| UnitTests.GetReviewByAssignment | tests/unittest.rb:431-440 | The Review of review assignment 1 is found. Revid 42 fails with NotFound. |
| UnitTests.UpdateReview | tests/unittest.rb:442-456 | After a second upsert for revid 1, the lookup returns the new grade and text. |
| UnitTests.NthQuestionSetup | tests/unittest.rb:58-66 | The setup's user, exam, three questions and three assignments get ids 1; 1; 1, 2, 3; and 1, 2, 3. |
| UnitTests.NthQuestionTwo | tests/unittest.rb:68-69 | `nth_question(exam, 2)` is the assignment of question 2. |
| UnitTests.NthQuestionFortyTwo | tests/unittest.rb:71-72 | `nth_question(exam, 42)` is the assignment of the third question, which is numbered 42. |
| UnitTests.NthQuestionThree | tests/unittest.rb:74-75 | `nth_question(exam, 3)` is nil. |
| UnitTests.SharedUsers | tests/unittest.rb:79-80 | Users 42, 43 and 44, created in that order, get ids 1, 2 and 3. |
| UnitTests.SharedQuestions | tests/unittest.rb:82-84 | Questions 1, 2 and 3 get ids 1, 2 and 3. |
| UnitTests.NReviewsSetup | tests/unittest.rb:85-90 | The reviewer's three review assignments get ids 1, 2 and 3. |
| UnitTests.NReviewsBeforeReviews | tests/unittest.rb:92-93 | With no Reviews, `n_reviews` is 0. |
| UnitTests.NReviewsAfterReviews | tests/unittest.rb:95-100 | After three Reviews, `n_reviews` is 3. |
| UnitTests.AllAnswersFirst | tests/unittest.rb:113-118 | With only the second assignment answered, `all_answers` is that one answer. |
| UnitTests.AllAnswersUpdated | tests/unittest.rb:120-124 | Re-answering it gives one answer with the new text. |
| UnitTests.AllAnswersTable | tests/unittest.rb:113-127 | The four answer upserts leave three rows. |
| UnitTests.AllAnswersAll | tests/unittest.rb:128-131 | With all three assignments answered, `all_answers` has three answers in assignment order. The third is the third assignment's. |
| UnitTests.IsAssignedSetup | tests/unittest.rb:145-147 | The three review assignments get ids 1, 2 and 3. |
| UnitTests.IsAssignedOwnOnly | tests/unittest.rb:149-150 | Reviewer 43 is assigned review assignment 1 and not review assignment 2. |
| UnitTests.AssignmentToQuestion | tests/unittest.rb:255-272 | The setup's question upsert gives the one-row table (1, 1, "bla"), and `uq.to_question` is that question. |
| UnitTests.AssignmentToAnswer | tests/unittest.rb:274-286 | An answered assignment's `to_answer` is its answer. The next, unanswered assignment's `to_answer` is nil. |
| UnitTests.AnswerOfSecondToQuestion | tests/unittest.rb:336-343 | The answer to the second assignment leads to question (2, 1, "bla2"). |
| UnitTests.AllReviewsSetup | tests/unittest.rb:346-352 | The two review assignments get ids 1 and 2, and the answer gets id 1. |
| UnitTests.AllReviewsNone | tests/unittest.rb:354-355 | With no Reviews, `all_reviews` is empty. |
| UnitTests.AllReviewsOne | tests/unittest.rb:357-361 | After the first Review, `all_reviews` is that Review. |
| UnitTests.AllReviewsTwo | tests/unittest.rb:363-368 | After both, `all_reviews` is both, in review-assignment order, the second with "Bad!". |

## Left out

- lib/dbstructure.rb and lib/handlers.rb are not part of this model.
  The SQL behind each operation is not modelled. Only the behaviour the
  tests assert is modelled, on in-memory sequences, and the rest is the
  choices listed above.
- The SQLite file, opening it by name, and deleting it in `teardown` are
  file I/O. A test starts from an empty `DBLayer` instead.
- The numeric values of the user and exam states are not modelled. The
  states are enumerations with the members the tests use.
- Transactions and concurrent access are not modelled. The tests run
  one call at a time.
- Deduplication of repeated `UserQuestion.new` and `UserReview.new`
  calls with the same arguments is not modelled. The model appends every
  time, and `AssignmentGraph.CreateTwiceDistinct` states that two
  identical creations give two rows with distinct ids. No test asserts
  either behaviour.
- UnitTests: the query tests (`nth_question`, `n_reviews`, `all_answers`,
  `is_assigned_userreview`, `to_question`, `to_answer`,
  `answer.to_question`, `all_reviews`) are lemmas over the tables their
  setup leaves, not methods that build that state through `DBLayer`.
  This keeps each proof small. Each setup is proved separately, by the
  matching `...Setup`, `SharedUsers`, `SharedQuestions` or
  `AllAnswersTable` lemma, or by the lemma's own first postcondition.
- UnitTests: the Answer, UserReview and Review tests start from an empty
  database and use the ids 1, 2 and 3 that their setup would give the
  assignments and review assignments. No foreign-key check is modelled,
  so the setup rows in the other tables do not change what those tests
  observe.
- Layer.DBLayer.SetExamState: Ruby's `exam.set_state` updates the exam
  object it is called on. The model returns a new `Exam` value with the
  new state instead, so it does not capture that in-place update or
  other references to the same object seeing it.
- Users.PutUserRows: a privlevel of `Nonexistent` passed to an upsert is
  stored as given. Nonexistent is meant only for the sentinel of an
  unknown user, and the tests never pass it, so the model neither
  rejects nor prevents it.
