/** The unit-test suite of the data layer, in two kinds. A test that only
    upserts, creates and looks up is a method: it builds a fresh database
    through the DBLayer methods and states what the test asserts as its
    postcondition. A test of a derived query is a lemma over the literal
    tables its setup leaves, beside a lemma proving that the setup's
    operations, applied to empty tables, give exactly those rows. */
module UnitTests {
  import opened Wrappers
  import opened Store
  import opened Entities
  import opened Users
  import opened ExamSingleton
  import opened QuestionCatalog
  import opened AssignmentGraph
  import opened AnswerStore
  import opened ReviewStore
  import opened Layer

  method UserConstructor() returns (user: User)
    ensures user.userid == Some(42) && user.privlevel == Regular && user.username == Some("IVAN")
  {
    var dbl := new DBLayer();
    user := dbl.PutUser(42, Regular, "IVAN");
  }

  method GetUserById() returns (user: User, id: Option<Id>)
    ensures user.id == id && id.Some?
    ensures user.userid == Some(43) && user.privlevel == Priviledged && user.username == Some("IVAN2")
  {
    var dbl := new DBLayer();
    var _ := dbl.PutUser(42, Regular, "IVAN");
    var created := dbl.PutUser(43, Priviledged, "IVAN2");
    id := created.id;
    var _ := dbl.PutUser(44, Regular, "IVAN3");
    user := GetUser(dbl.users, 43);
  }

  method UpdateName() returns (user: User, user1: User)
    ensures user.id == user1.id
    ensures user.userid == Some(42) && user.privlevel == Priviledged && user.username == Some("IVAN2")
  {
    var dbl := new DBLayer();
    user1 := dbl.PutUser(42, Priviledged, "IVAN");
    var _ := dbl.PutUser(42, Regular, "IVAN2");
    user := GetUser(dbl.users, 42);
  }

  method UnknownUser() returns (user: User)
    ensures user.userid.None? && user.privlevel == Nonexistent && user.username.None?
  {
    var dbl := new DBLayer();
    user := GetUser(dbl.users, 42);
  }

  method UserIsPriviledged() returns (first: bool, second: bool)
    ensures first && !second
  {
    var dbl := new DBLayer();
    var user := dbl.PutUser(43, Priviledged, "IVAN2");
    first := IsPriviledged(user);
    user := dbl.PutUser(42, Regular, "IVAN");
    second := IsPriviledged(user);
  }

  method ExamConstructor() returns (exam: Exam)
    ensures exam.name == "test" && exam.state == Stopped
  {
    var dbl := new DBLayer();
    exam := dbl.PutExam("test");
  }

  method ExamSetState() returns (exam: Exam)
    ensures exam.state == Reviewing
  {
    var dbl := new DBLayer();
    exam := dbl.PutExam("test");
    exam := dbl.SetExamState(exam, Reviewing);
  }

  method SeveralExams() returns (exam: Exam)
    ensures exam.name == "test1"
  {
    var dbl := new DBLayer();
    var _ := dbl.PutExam("test1");
    var _ := dbl.PutExam("test2");
    exam := dbl.PutExam("test3");
  }

  method QuestionConstructor() returns (question: Question)
    ensures question.number == 1 && question.variant == 1 && question.text == "bla"
  {
    var dbl := new DBLayer();
    question := dbl.PutQuestion(1, 1, "bla");
  }

  method GetQuestionByKey() returns (question: Result<Question, DBLayerError>)
    ensures question.Success?
    ensures question.value.number == 2 && question.value.variant == 1 && question.value.text == "bla2"
  {
    var dbl := new DBLayer();
    var _ := dbl.PutQuestion(1, 1, "bla1");
    var _ := dbl.PutQuestion(2, 1, "bla2");
    var _ := dbl.PutQuestion(3, 1, "bla3");
    question := GetQuestion(dbl.questions, 2, 1);
  }

  method UpdateQuestion() returns (question: Result<Question, DBLayerError>)
    ensures question.Success?
    ensures question.value.number == 1 && question.value.variant == 1 && question.value.text == "bla1"
  {
    var dbl := new DBLayer();
    var _ := dbl.PutQuestion(1, 1, "bla");
    var _ := dbl.PutQuestion(1, 1, "bla1");
    question := GetQuestion(dbl.questions, 1, 1);
  }

  method UnexpectedNumber() returns (q1: Result<Question, DBLayerError>, q2: Result<Question, DBLayerError>)
    ensures q1.Success? && q1.value.number == 42 && q1.value.variant == 13 && q1.value.text == "bla1"
    ensures q2.Success? && q2.value.number == 42 && q2.value.variant == 1 && q2.value.text == "bla3"
  {
    var dbl := new DBLayer();
    var _ := dbl.PutQuestion(42, 13, "bla1");
    var _ := dbl.PutQuestion(1, 1, "bla2");
    var _ := dbl.PutQuestion(42, 1, "bla3");
    q1 := GetQuestion(dbl.questions, 42, 13);
    q2 := GetQuestion(dbl.questions, 42, 1);
  }

  method UnregisteredQuestion() returns (q1: Result<Question, DBLayerError>, q2: Result<Question, DBLayerError>)
    ensures q1 == Failure(NotFound) && q2 == Failure(NotFound)
  {
    var dbl := new DBLayer();
    var _ := dbl.PutQuestion(1, 1, "bla");
    q1 := GetQuestion(dbl.questions, 1, 4);
    q2 := GetQuestion(dbl.questions, 4, 1);
  }

  method UserQuestionConstructor() returns (uq: UserQuestion, user: User, exam: Exam, question: Question)
    ensures user.id.Some?
    ensures uq.examid == exam.id && uq.userid == user.id.value && uq.questionid == question.id
  {
    var dbl := new DBLayer();
    user := dbl.PutUser(42, Regular, "IVAN");
    exam := dbl.PutExam("exam");
    question := dbl.PutQuestion(1, 1, "bla");
    uq := dbl.CreateUserQuestion(exam.id, user.id.value, question.id);
  }

  method AnswerConstructor() returns (answer: Answer)
    ensures answer.uqid == 1 && answer.text == "Good answer"
  {
    var dbl := new DBLayer();
    answer := dbl.PutAnswer(1, "Good answer");
  }

  method GetAnswerByAssignment() returns (a2: Result<Answer, DBLayerError>, a3: Result<Answer, DBLayerError>, a42: Result<Answer, DBLayerError>)
    ensures a2.Success? && a2.value.uqid == 2 && a2.value.text == "Good answer2"
    ensures a3.Success? && a3.value.uqid == 3 && a3.value.text == "Good answer3"
    ensures a42 == Failure(NotFound)
  {
    var dbl := new DBLayer();
    var _ := dbl.PutAnswer(2, "Good answer2");
    var _ := dbl.PutAnswer(3, "Good answer3");
    a2 := GetAnswer(dbl.answers, 2);
    a3 := GetAnswer(dbl.answers, 3);
    a42 := GetAnswer(dbl.answers, 42);
  }

  method UpdateAnswer() returns (answer: Result<Answer, DBLayerError>)
    ensures answer.Success? && answer.value.uqid == 1 && answer.value.text == "Good answer1"
  {
    var dbl := new DBLayer();
    var _ := dbl.PutAnswer(1, "Good answer");
    var _ := dbl.PutAnswer(1, "Good answer1");
    answer := GetAnswer(dbl.answers, 1);
  }

  method UserReviewConstructor() returns (ur: UserReview, own: UserReview)
    ensures ur.userid == 2 && ur.userquestionid == 1
    ensures own.userid == 1 && own.userquestionid == 1
  {
    var dbl := new DBLayer();
    ur := dbl.CreateUserReview(2, 1);
    own := dbl.CreateUserReview(1, 1);
  }

  method ReviewConstructor() returns (review: Review)
    ensures review.revid == 1 && review.grade == 10 && review.text == "Nice!"
  {
    var dbl := new DBLayer();
    review := dbl.PutReview(1, 10, "Nice!");
  }

  method GetReviewByAssignment() returns (review: Result<Review, DBLayerError>, missing: Result<Review, DBLayerError>)
    ensures review.Success? && review.value.revid == 1 && review.value.grade == 10 && review.value.text == "Nice!"
    ensures missing == Failure(NotFound)
  {
    var dbl := new DBLayer();
    var _ := dbl.PutReview(1, 10, "Nice!");
    review := GetReview(dbl.reviews, 1);
    missing := GetReview(dbl.reviews, 42);
  }

  method UpdateReview() returns (before: Result<Review, DBLayerError>, after: Result<Review, DBLayerError>)
    ensures before.Success? && before.value.revid == 1 && before.value.grade == 10 && before.value.text == "Nice!"
    ensures after.Success? && after.value.revid == 1 && after.value.grade == 1 && after.value.text == "Bad!"
  {
    var dbl := new DBLayer();
    var _ := dbl.PutReview(1, 10, "Nice!");
    before := GetReview(dbl.reviews, 1);
    var _ := dbl.PutReview(1, 1, "Bad!");
    after := GetReview(dbl.reviews, 1);
  }

  /** The rows the nth_question test sets up: user 42 gets id 1, the exam id 1,
      the questions numbered 1, 2 and 42 ids 1, 2 and 3, and the user's three
      assignments ids 1, 2 and 3. */
  lemma NthQuestionSetup()
    ensures GetUser(PutUserRows([], 42, Regular, "IVAN"), 42).id == Some(1)
    ensures PutExamRows([], "exam") == [Exam(1, "exam", Stopped)]
    ensures PutQuestionRows(PutQuestionRows(PutQuestionRows([], 1, 1, "bla"), 2, 1, "bla1"), 42, 1, "bla2")
         == [Question(1, 1, 1, "bla"), Question(2, 2, 1, "bla1"), Question(3, 42, 1, "bla2")]
    ensures CreateUserQuestionRows(CreateUserQuestionRows(CreateUserQuestionRows([], 1, 1, 1), 1, 1, 2), 1, 1, 3)
         == [UserQuestion(1, 1, 1, 1), UserQuestion(2, 1, 1, 2), UserQuestion(3, 1, 1, 3)]
  {
  }

  /** `nth_question(exam, 2)` finds the assignment of the question numbered 2. */
  lemma NthQuestionTwo()
    ensures NthQuestion([UserQuestion(1, 1, 1, 1), UserQuestion(2, 1, 1, 2), UserQuestion(3, 1, 1, 3)],
                        [Question(1, 1, 1, "bla"), Question(2, 2, 1, "bla1"), Question(3, 42, 1, "bla2")], 1, 1, 2)
         == Some(UserQuestion(2, 1, 1, 2))
  {
  }

  /** `nth_question(exam, 42)` finds the assignment of the question numbered 42,
      although that question is the third one. */
  lemma NthQuestionFortyTwo()
    ensures NthQuestion([UserQuestion(1, 1, 1, 1), UserQuestion(2, 1, 1, 2), UserQuestion(3, 1, 1, 3)],
                        [Question(1, 1, 1, "bla"), Question(2, 2, 1, "bla1"), Question(3, 42, 1, "bla2")], 1, 1, 42)
         == Some(UserQuestion(3, 1, 1, 3))
  {
  }

  /** `nth_question(exam, 3)` finds nothing: 3 is a position among the
      assignments, but no question has that number. */
  lemma NthQuestionThree()
    ensures NthQuestion([UserQuestion(1, 1, 1, 1), UserQuestion(2, 1, 1, 2), UserQuestion(3, 1, 1, 3)],
                        [Question(1, 1, 1, "bla"), Question(2, 2, 1, "bla1"), Question(3, 42, 1, "bla2")], 1, 1, 3)
         == None
  {
  }

  /** The users of the query tests: 43 gets id 2 and 44 id 3, after 42. */
  lemma SharedUsers()
    ensures GetUser(PutUserRows(PutUserRows([], 42, Regular, "IVAN"), 43, Regular, "IVAN2"), 43).id == Some(2)
    ensures PutUserRows(PutUserRows(PutUserRows([], 42, Regular, "IVAN"), 43, Regular, "IVAN2"), 44, Regular, "IVAN3")
         == [UserRow(1, 42, Regular, "IVAN"), UserRow(2, 43, Regular, "IVAN2"), UserRow(3, 44, Regular, "IVAN3")]
  {
  }

  /** The questions of the query tests: numbers 1, 2 and 3 get ids 1, 2 and 3. */
  lemma SharedQuestions()
    ensures PutQuestionRows(PutQuestionRows(PutQuestionRows([], 1, 1, "bla1"), 2, 1, "bla2"), 3, 1, "bla3")
         == [Question(1, 1, 1, "bla1"), Question(2, 2, 1, "bla2"), Question(3, 3, 1, "bla3")]
  {
  }

  /** The n_reviews test assigns the reviewer (id 2) all three assignments. */
  lemma NReviewsSetup()
    ensures CreateUserReviewRows(CreateUserReviewRows(CreateUserReviewRows([], 2, 1), 2, 2), 2, 3)
         == [UserReview(1, 2, 1), UserReview(2, 2, 2), UserReview(3, 2, 3)]
  {
  }

  /** Review assignments without Reviews count for nothing. */
  lemma NReviewsBeforeReviews()
    ensures NReviews([UserReview(1, 2, 1), UserReview(2, 2, 2), UserReview(3, 2, 3)], [], 2) == 0
  {
  }

  /** Once all three are reviewed the reviewer has three reviews. */
  lemma NReviewsAfterReviews()
    ensures NReviews([UserReview(1, 2, 1), UserReview(2, 2, 2), UserReview(3, 2, 3)],
                     PutReviewRows(PutReviewRows(PutReviewRows([], 1, 10, "Nice!"), 2, 10, "Nice!"), 3, 10, "Nice!"), 2)
         == 3
  {
  }

  /** all_answers with only the second assignment answered. */
  lemma AllAnswersFirst()
    ensures AllAnswers([UserQuestion(1, 1, 1, 1), UserQuestion(2, 1, 1, 2), UserQuestion(3, 1, 1, 3)],
                       PutAnswerRows([], 2, "Good answer2"), 1)
         == [Answer(1, 2, "Good answer2")]
  {
  }

  /** Answering the second assignment again replaces its answer. */
  lemma AllAnswersUpdated()
    ensures AllAnswers([UserQuestion(1, 1, 1, 1), UserQuestion(2, 1, 1, 2), UserQuestion(3, 1, 1, 3)],
                       PutAnswerRows(PutAnswerRows([], 2, "Good answer2"), 2, "Good answer"), 1)
         == [Answer(1, 2, "Good answer")]
  {
  }

  /** The answers table once the first and third assignments are answered
      too: the first assignment's answer is the second row. */
  lemma AllAnswersTable()
    ensures PutAnswerRows(PutAnswerRows(PutAnswerRows(PutAnswerRows([], 2, "Good answer2"), 2, "Good answer"),
                                        1, "Good answer1"), 3, "Good answer3")
         == [Answer(1, 2, "Good answer"), Answer(2, 1, "Good answer1"), Answer(3, 3, "Good answer3")]
  {
  }

  /** With all three answered the answers come in assignment order, not in
      the order they were given. */
  lemma AllAnswersAll()
    ensures AllAnswers([UserQuestion(1, 1, 1, 1), UserQuestion(2, 1, 1, 2), UserQuestion(3, 1, 1, 3)],
                       [Answer(1, 2, "Good answer"), Answer(2, 1, "Good answer1"), Answer(3, 3, "Good answer3")], 1)
         == [Answer(2, 1, "Good answer1"), Answer(1, 2, "Good answer"), Answer(3, 3, "Good answer3")]
  {
  }

  /** The is_assigned_userreview test: reviewer 43 (id 2) holds the first
      review assignment, reviewer 44 (id 3) the second and third. */
  lemma IsAssignedSetup()
    ensures CreateUserReviewRows(CreateUserReviewRows(CreateUserReviewRows([], 2, 1), 3, 2), 3, 3)
         == [UserReview(1, 2, 1), UserReview(2, 3, 2), UserReview(3, 3, 3)]
  {
  }

  /** A reviewer holds their own review assignment and not another's. */
  lemma IsAssignedOwnOnly()
    ensures IsAssignedUserReview([UserReview(1, 2, 1), UserReview(2, 3, 2), UserReview(3, 3, 3)], 2, 1)
    ensures !IsAssignedUserReview([UserReview(1, 2, 1), UserReview(2, 3, 2), UserReview(3, 3, 3)], 2, 2)
  {
  }

  /** `uq.to_question` of the setup's assignment. */
  lemma AssignmentToQuestion()
    ensures PutQuestionRows([], 1, 1, "bla") == [Question(1, 1, 1, "bla")]
    ensures ToQuestion([Question(1, 1, 1, "bla")], UserQuestion(1, 1, 1, 1)) == Success(Question(1, 1, 1, "bla"))
  {
  }

  /** `uq.to_answer` finds the answer of an answered assignment; a second
      assignment, of the question added next (id 2), has none. */
  lemma AssignmentToAnswer()
    ensures PutQuestionRows([Question(1, 1, 1, "bla")], 2, 1, "bla1") == [Question(1, 1, 1, "bla"), Question(2, 2, 1, "bla1")]
    ensures ToAnswer(PutAnswerRows([], 1, "Good answer"), UserQuestion(1, 1, 1, 1)) == Some(Answer(1, 1, "Good answer"))
    ensures ToAnswer(PutAnswerRows([], 1, "Good answer"), UserQuestion(2, 1, 1, 2)) == None
  {
  }

  /** `answer.to_question` of an answer to the second assignment. */
  lemma AnswerOfSecondToQuestion()
    ensures AnswerToQuestion([UserQuestion(1, 1, 1, 1), UserQuestion(2, 1, 1, 2), UserQuestion(3, 1, 1, 3)],
                             [Question(1, 1, 1, "bla1"), Question(2, 2, 1, "bla2"), Question(3, 3, 1, "bla3")],
                             Answer(1, 2, "Good answer"))
         == Success(Question(2, 2, 1, "bla2"))
  {
  }

  /** The all_reviews test: reviewers 43 (id 2) and 44 (id 3) are both
      assigned the first assignment, whose answer gets id 1. */
  lemma AllReviewsSetup()
    ensures CreateUserReviewRows(CreateUserReviewRows([], 2, 1), 3, 1) == [UserReview(1, 2, 1), UserReview(2, 3, 1)]
    ensures PutAnswerRows([], 1, "Good answer") == [Answer(1, 1, "Good answer")]
  {
  }

  /** No Reviews yet: all_reviews is empty. */
  lemma AllReviewsNone()
    ensures AllReviews([UserReview(1, 2, 1), UserReview(2, 3, 1)], [], Answer(1, 1, "Good answer")) == []
  {
  }

  /** After the first reviewer's Review. */
  lemma AllReviewsOne()
    ensures AllReviews([UserReview(1, 2, 1), UserReview(2, 3, 1)], PutReviewRows([], 1, 10, "Nice!"), Answer(1, 1, "Good answer"))
         == [Review(1, 1, 10, "Nice!")]
  {
  }

  /** After both Reviews, in the order of the review assignments. */
  lemma AllReviewsTwo()
    ensures AllReviews([UserReview(1, 2, 1), UserReview(2, 3, 1)],
                       PutReviewRows(PutReviewRows([], 1, 10, "Nice!"), 2, 1, "Bad!"), Answer(1, 1, "Good answer"))
         == [Review(1, 1, 10, "Nice!"), Review(2, 2, 1, "Bad!")]
  {
  }
}
