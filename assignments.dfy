/** The UserQuestion entity (an assignment of a question to a user in an
    exam): append-only creation, the lookup of a user's assignment by question
    number, and the question an assignment refers to. */
module AssignmentGraph {
  import opened Wrappers
  import opened Store
  import opened Entities
  import opened QuestionCatalog

  ghost predicate UserQuestionsValid(t: seq<UserQuestion>) {
    Numbered(t, UserQuestionId)
  }

  /** `UserQuestion.new(dbl, examid, userid, questionid)`: always a new row. */
  function CreateUserQuestionRows(t: seq<UserQuestion>, examid: Id, userid: Id, questionid: Id): seq<UserQuestion> {
    t + [UserQuestion(|t| + 1, examid, userid, questionid)]
  }

  /** `uq.to_question`. */
  function ToQuestion(qs: seq<Question>, uq: UserQuestion): (r: Result<Question, DBLayerError>)
    ensures r.Success? ==> r.value in qs && r.value.id == uq.questionid
    ensures r.Failure? <==> forall j :: 0 <= j < |qs| ==> qs[j].id != uq.questionid
  {
    QuestionById(qs, uq.questionid)
  }

  /** `uq` assigns, in exam `examId` to user `userId`, a question numbered `n`. */
  predicate AssignsNumber(qs: seq<Question>, uq: UserQuestion, examId: Id, userId: Id, n: int) {
    && uq.examid == examId
    && uq.userid == userId
    && match ToQuestion(qs, uq)
       case Success(q) => q.number == n
       case Failure(_) => false
  }

  /** `user.nth_question(examid, n)`: the user's assignment in that exam whose
      question has number `n` (a question number, not a position), the
      earliest one if several do; None when there is none. */
  function NthQuestion(uqs: seq<UserQuestion>, qs: seq<Question>, examId: Id, userId: Id, n: int): (r: Option<UserQuestion>)
    ensures r.Some? ==> r.value in uqs && AssignsNumber(qs, r.value, examId, userId, n)
    ensures r.None? <==> forall j :: 0 <= j < |uqs| ==> !AssignsNumber(qs, uqs[j], examId, userId, n)
  {
    if uqs == [] then None
    else if AssignsNumber(qs, uqs[0], examId, userId, n) then Some(uqs[0])
    else NthQuestion(uqs[1..], qs, examId, userId, n)
  }

  /** When several assignments match, `nth_question` returns the one created
      first. */
  lemma {:induction false} NthQuestionIsEarliest(uqs: seq<UserQuestion>, qs: seq<Question>, examId: Id, userId: Id, n: int, j: nat)
    requires j < |uqs| && AssignsNumber(qs, uqs[j], examId, userId, n)
    ensures exists i :: 0 <= i <= j && NthQuestion(uqs, qs, examId, userId, n) == Some(uqs[i]) &&
              forall k :: 0 <= k < i ==> !AssignsNumber(qs, uqs[k], examId, userId, n)
  {
    if AssignsNumber(qs, uqs[0], examId, userId, n) {
      assert NthQuestion(uqs, qs, examId, userId, n) == Some(uqs[0]);
    } else {
      assert uqs[1..][j - 1] == uqs[j];
      NthQuestionIsEarliest(uqs[1..], qs, examId, userId, n, j - 1);
      var i :| 0 <= i <= j - 1 && NthQuestion(uqs[1..], qs, examId, userId, n) == Some(uqs[1..][i]) &&
                forall k :: 0 <= k < i ==> !AssignsNumber(qs, uqs[1..][k], examId, userId, n);
      assert uqs[1..][i] == uqs[i + 1];
      forall k | 0 <= k < i + 1
        ensures !AssignsNumber(qs, uqs[k], examId, userId, n)
      {
        if k > 0 { assert uqs[k] == uqs[1..][k - 1]; }
      }
    }
  }

  /** Creation never deduplicates: it appends a row under a fresh id and
      leaves every earlier row as it was. */
  lemma CreateUserQuestionAppends(t: seq<UserQuestion>, examid: Id, userid: Id, questionid: Id)
    requires UserQuestionsValid(t)
    ensures var r := CreateUserQuestionRows(t, examid, userid, questionid);
            && UserQuestionsValid(r) && |r| == |t| + 1 && r[..|t|] == t
            && r[|t|] == UserQuestion(|t| + 1, examid, userid, questionid)
            && forall j :: 0 <= j < |t| ==> t[j].id != r[|t|].id
  {
  }

  /** Two creations with the same arguments give two rows with distinct ids. */
  lemma CreateTwiceDistinct(t: seq<UserQuestion>, examid: Id, userid: Id, questionid: Id)
    requires UserQuestionsValid(t)
    ensures var r := CreateUserQuestionRows(CreateUserQuestionRows(t, examid, userid, questionid), examid, userid, questionid);
            && |r| == |t| + 2 && r[|t|].id != r[|t| + 1].id
            && (r[|t|].examid, r[|t|].userid, r[|t|].questionid) == (r[|t| + 1].examid, r[|t| + 1].userid, r[|t| + 1].questionid)
  {
  }

  /** An assignment made for a stored question leads back to that question. */
  lemma ToQuestionOfStored(qs: seq<Question>, q: Question, uq: UserQuestion)
    requires QuestionsValid(qs) && q in qs && uq.questionid == q.id
    ensures ToQuestion(qs, uq) == Success(q)
  {
    QuestionByIdOfStored(qs, q);
  }
}
