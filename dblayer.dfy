/** DBLayer: the database the entity constructors read and write, held in
    memory as one table per entity. Upserts and creations are methods that
    change the tables in place; lookups and queries are the functions of the
    entity modules applied to the current tables. */
module Layer {
  import opened Wrappers
  import opened Store
  import opened Entities
  import opened Users
  import opened ExamSingleton
  import opened QuestionCatalog
  import opened AssignmentGraph
  import opened AnswerStore
  import opened ReviewStore

  class DBLayer {
    var users: seq<UserRow>
    var exams: seq<Exam>
    var questions: seq<Question>
    var userQuestions: seq<UserQuestion>
    var answers: seq<Answer>
    var userReviews: seq<UserReview>
    var reviews: seq<Review>

    /** Ids in creation order in every table, unique natural keys, at most one exam. */
    ghost predicate Valid()
      reads this
    {
      && UsersValid(users)
      && ExamsValid(exams)
      && QuestionsValid(questions)
      && UserQuestionsValid(userQuestions)
      && AnswersValid(answers)
      && UserReviewsValid(userReviews)
      && ReviewsValid(reviews)
    }

    /** An empty database. */
    constructor ()
      ensures Valid()
      ensures users == [] && exams == [] && questions == [] && userQuestions == []
      ensures answers == [] && userReviews == [] && reviews == []
    {
      users, exams, questions, userQuestions := [], [], [], [];
      answers, userReviews, reviews := [], [], [];
    }

    /** `User.new(dbl, userid, privlevel, username)`. */
    method PutUser(userid: int, privlevel: UserState, username: string) returns (u: User)
      requires Valid()
      modifies this`users
      ensures Valid()
      ensures users == PutUserRows(old(users), userid, privlevel, username)
      ensures u == GetUser(users, userid)
      ensures var was := GetUser(old(users), userid);
              && u.userid == Some(userid) && u.username == Some(username)
              && (was.id.Some? ==> u.id == was.id && u.privlevel == was.privlevel)
              && (was.id.None? ==> u.id == Some(|old(users)| + 1) && u.privlevel == privlevel)
      ensures forall k :: k != userid ==> GetUser(users, k) == GetUser(old(users), k)
      ensures GetUser(old(users), userid).id.None? ==> users == old(users) + [UserRow(|old(users)| + 1, userid, privlevel, username)]
    {
      ghost var t := users;
      match IndexOfKey(users, UserKey, userid) {
        case Some(i) => users := users[i := users[i].(username := username)];
        case None => users := users + [UserRow(|users| + 1, userid, privlevel, username)];
      }
      assert users == PutUserRows(t, userid, privlevel, username);
      u := GetUser(users, userid);
      PutUserThenGet(t, userid, privlevel, username);
      PutUserFrame(t, userid, privlevel, username, userid);
      forall k | k != userid ensures GetUser(users, k) == GetUser(t, k) {
        PutUserFrame(t, userid, privlevel, username, k);
      }
    }

    /** `Exam.new(dbl, name)`: the one exam, created on the first call. */
    method PutExam(name: string) returns (e: Exam)
      requires Valid()
      modifies this`exams
      ensures Valid()
      ensures exams == PutExamRows(old(exams), name) && exams == [e]
      ensures old(exams) == [] ==> e == Exam(1, name, Stopped)
      ensures old(exams) != [] ==> e == old(exams)[0]
    {
      if exams == [] {
        exams := [Exam(1, name, Stopped)];
      }
      e := exams[0];
      PutExamFirstWins(old(exams), name);
    }

    /** `exam.set_state(state)`: the exam object and its row take the new state. */
    method SetExamState(e: Exam, state: ExamState) returns (e': Exam)
      requires Valid()
      modifies this`exams
      ensures Valid()
      ensures exams == SetStateRows(old(exams), e.id, state)
      ensures e' == e.(state := state)
      ensures |exams| == |old(exams)|
      ensures forall i :: 0 <= i < |exams| ==>
        exams[i] == old(exams)[i].(state := if old(exams)[i].id == e.id then state else old(exams)[i].state)
    {
      match IndexOfKey(exams, ExamId, e.id) {
        case Some(i) => exams := exams[i := exams[i].(state := state)];
        case None =>
      }
      e' := e.(state := state);
      SetStateOnlyState(old(exams), e.id, state);
    }

    /** `Question.new(dbl, number, variant, text)`. */
    method PutQuestion(number: int, variant: int, text: string) returns (q: Question)
      requires Valid()
      modifies this`questions
      ensures Valid()
      ensures questions == PutQuestionRows(old(questions), number, variant, text)
      ensures var was := GetQuestion(old(questions), number, variant);
              q == Question(if was.Success? then was.value.id else |old(questions)| + 1, number, variant, text)
      ensures GetQuestion(questions, number, variant) == Success(q)
      ensures GetQuestion(old(questions), number, variant).Failure? ==> questions == old(questions) + [q]
      ensures forall n, v :: (n, v) != (number, variant) ==> GetQuestion(questions, n, v) == GetQuestion(old(questions), n, v)
    {
      match IndexOfKey(questions, QuestionKey, (number, variant)) {
        case Some(i) => questions := questions[i := questions[i].(text := text)];
        case None => questions := questions + [Question(|questions| + 1, number, variant, text)];
      }
      PutQuestionThenGet(old(questions), number, variant, text, number, variant);
      q := GetQuestion(questions, number, variant).value;
      forall n, v | (n, v) != (number, variant)
        ensures GetQuestion(questions, n, v) == GetQuestion(old(questions), n, v)
      {
        PutQuestionThenGet(old(questions), number, variant, text, n, v);
      }
    }

    /** `UserQuestion.new(dbl, examid, userid, questionid)`. */
    method CreateUserQuestion(examid: Id, userid: Id, questionid: Id) returns (uq: UserQuestion)
      requires Valid()
      modifies this`userQuestions
      ensures Valid()
      ensures userQuestions == CreateUserQuestionRows(old(userQuestions), examid, userid, questionid)
      ensures userQuestions == old(userQuestions) + [uq]
      ensures uq == UserQuestion(|old(userQuestions)| + 1, examid, userid, questionid)
    {
      uq := UserQuestion(|userQuestions| + 1, examid, userid, questionid);
      userQuestions := userQuestions + [uq];
      CreateUserQuestionAppends(old(userQuestions), examid, userid, questionid);
    }

    /** `Answer.new(dbl, uqid, text)`. */
    method PutAnswer(uqid: Id, text: string) returns (a: Answer)
      requires Valid()
      modifies this`answers
      ensures Valid()
      ensures answers == PutAnswerRows(old(answers), uqid, text)
      ensures var was := GetAnswer(old(answers), uqid);
              a == Answer(if was.Success? then was.value.id else |old(answers)| + 1, uqid, text)
      ensures GetAnswer(answers, uqid) == Success(a)
      ensures GetAnswer(old(answers), uqid).Failure? ==> answers == old(answers) + [a]
      ensures forall k :: k != uqid ==> GetAnswer(answers, k) == GetAnswer(old(answers), k)
    {
      match IndexOfKey(answers, AnswerKey, uqid) {
        case Some(i) => answers := answers[i := answers[i].(text := text)];
        case None => answers := answers + [Answer(|answers| + 1, uqid, text)];
      }
      PutAnswerThenGet(old(answers), uqid, text, uqid);
      a := GetAnswer(answers, uqid).value;
      forall k | k != uqid ensures GetAnswer(answers, k) == GetAnswer(old(answers), k) {
        PutAnswerThenGet(old(answers), uqid, text, k);
      }
    }

    /** `UserReview.new(dbl, userid, userquestionid)`. */
    method CreateUserReview(userid: Id, userquestionid: Id) returns (ur: UserReview)
      requires Valid()
      modifies this`userReviews
      ensures Valid()
      ensures userReviews == CreateUserReviewRows(old(userReviews), userid, userquestionid)
      ensures userReviews == old(userReviews) + [ur]
      ensures ur == UserReview(|old(userReviews)| + 1, userid, userquestionid)
    {
      ur := UserReview(|userReviews| + 1, userid, userquestionid);
      userReviews := userReviews + [ur];
      CreateUserReviewAssigns(old(userReviews), userid, userquestionid, userid, ur.id);
    }

    /** `Review.new(dbl, revid, grade, text)`. */
    method PutReview(revid: Id, grade: int, text: string) returns (rv: Review)
      requires Valid()
      modifies this`reviews
      ensures Valid()
      ensures reviews == PutReviewRows(old(reviews), revid, grade, text)
      ensures var was := GetReview(old(reviews), revid);
              rv == Review(if was.Success? then was.value.id else |old(reviews)| + 1, revid, grade, text)
      ensures GetReview(reviews, revid) == Success(rv)
      ensures GetReview(old(reviews), revid).Failure? ==> reviews == old(reviews) + [rv]
      ensures forall k :: k != revid ==> GetReview(reviews, k) == GetReview(old(reviews), k)
    {
      match IndexOfKey(reviews, ReviewKey, revid) {
        case Some(i) => reviews := reviews[i := reviews[i].(grade := grade, text := text)];
        case None => reviews := reviews + [Review(|reviews| + 1, revid, grade, text)];
      }
      PutReviewThenGet(old(reviews), revid, grade, text, revid);
      rv := GetReview(reviews, revid).value;
      forall k | k != revid ensures GetReview(reviews, k) == GetReview(old(reviews), k) {
        PutReviewThenGet(old(reviews), revid, grade, text, k);
      }
    }
  }
}
