/** The rows of the seven tables of the data layer and the value a User
    construction hands back. Every row carries the surrogate `id` the store
    assigned; foreign-key fields hold surrogate ids of the referenced table. */
module Entities {
  import opened Wrappers
  import opened Store

  /** USER_STATE: `Nonexistent` marks the user a lookup could not find. */
  datatype UserState = Nonexistent | Regular | Priviledged

  /** EXAM_STATE, with the states the layer's callers use. */
  datatype ExamState = Stopped | Reviewing

  /** The one error a key-only lookup raises. */
  datatype DBLayerError = NotFound

  /** A row of `users`; `userid` is the natural key. */
  datatype UserRow = UserRow(id: Id, userid: int, privlevel: UserState, username: string)

  /** A User object as a caller sees it; for an unknown user every field but
      `privlevel` is nil. */
  datatype User = User(id: Option<Id>, userid: Option<int>, privlevel: UserState, username: Option<string>)

  /** The row of `exam`; at most one ever exists. */
  datatype Exam = Exam(id: Id, name: string, state: ExamState)

  /** A row of `questions`; `(number, variant)` is the natural key. */
  datatype Question = Question(id: Id, number: int, variant: int, text: string)

  /** A row of `userquestions`: an assignment of a question to a user in an exam. */
  datatype UserQuestion = UserQuestion(id: Id, examid: Id, userid: Id, questionid: Id)

  /** A row of `answers`; `uqid` (the assignment answered) is the natural key. */
  datatype Answer = Answer(id: Id, uqid: Id, text: string)

  /** A row of `userreviews`: reviewer `userid` is to review assignment `userquestionid`. */
  datatype UserReview = UserReview(id: Id, userid: Id, userquestionid: Id)

  /** A row of `reviews`; `revid` (the review assignment) is the natural key. */
  datatype Review = Review(id: Id, revid: Id, grade: int, text: string)

  // Natural keys.
  function UserKey(r: UserRow): int { r.userid }
  function QuestionKey(q: Question): (int, int) { (q.number, q.variant) }
  function AnswerKey(a: Answer): Id { a.uqid }
  function ReviewKey(r: Review): Id { r.revid }

  // Surrogate ids.
  function UserRowId(r: UserRow): Id { r.id }
  function ExamId(e: Exam): Id { e.id }
  function QuestionId(q: Question): Id { q.id }
  function UserQuestionId(uq: UserQuestion): Id { uq.id }
  function AnswerId(a: Answer): Id { a.id }
  function UserReviewId(ur: UserReview): Id { ur.id }
  function ReviewId(r: Review): Id { r.id }
}
