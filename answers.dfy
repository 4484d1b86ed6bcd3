/** The Answer entity: at most one answer per assignment, upserted by `uqid`;
    a key-only lookup of an unanswered assignment raises DBLayerError, while
    `to_answer` and `all_answers` tolerate unanswered assignments. */
module AnswerStore {
  import opened Wrappers
  import opened Store
  import opened Entities
  import opened QuestionCatalog
  import opened AssignmentGraph

  ghost predicate AnswersValid(t: seq<Answer>) {
    Numbered(t, AnswerId) && UniqueKeys(t, AnswerKey)
  }

  /** `Answer.new(dbl, uqid)`. */
  function GetAnswer(t: seq<Answer>, uqid: Id): (r: Result<Answer, DBLayerError>)
    ensures r.Failure? <==> forall j :: 0 <= j < |t| ==> t[j].uqid != uqid
    ensures r.Failure? ==> r.error == NotFound
    ensures r.Success? ==> r.value in t && r.value.uqid == uqid
  {
    match FindOne(t, AnswerKey, uqid)
    case Some(a) => Success(a)
    case None => Failure(NotFound)
  }

  /** `Answer.new(dbl, uqid, text)` on the `answers` table. */
  function PutAnswerRows(t: seq<Answer>, uqid: Id, text: string): seq<Answer> {
    match IndexOfKey(t, AnswerKey, uqid)
    case Some(i) => t[i := t[i].(text := text)]
    case None => t + [Answer(|t| + 1, uqid, text)]
  }

  /** `uq.to_answer`: the assignment's answer, or None when it has none yet;
      it agrees with the raising lookup wherever that one succeeds. */
  function ToAnswer(t: seq<Answer>, uq: UserQuestion): (r: Option<Answer>)
    ensures r.None? <==> GetAnswer(t, uq.id).Failure?
    ensures r.Some? ==> GetAnswer(t, uq.id) == Success(r.value) && r.value.uqid == uq.id
  {
    FindOne(t, AnswerKey, uq.id)
  }

  /** `answer.to_question`: the question of the answered assignment. */
  function AnswerToQuestion(uqs: seq<UserQuestion>, qs: seq<Question>, a: Answer): (r: Result<Question, DBLayerError>)
    ensures r.Success? ==>
      r.value in qs &&
      exists j :: 0 <= j < |uqs| && uqs[j].id == a.uqid && uqs[j].questionid == r.value.id
  {
    match FindOne(uqs, UserQuestionId, a.uqid)
    case Some(uq) => ToQuestion(qs, uq)
    case None => Failure(NotFound)
  }

  /** `user.all_answers`: the answers of the user's answered assignments, in
      the order the assignments were created. */
  function AllAnswers(uqs: seq<UserQuestion>, t: seq<Answer>, userId: Id): (r: seq<Answer>)
    ensures |r| <= |uqs|
  {
    if uqs == [] then []
    else
      var rest := AllAnswers(uqs[1..], t, userId);
      if uqs[0].userid == userId then
        match ToAnswer(t, uqs[0])
        case Some(a) => [a] + rest
        case None => rest
      else rest
  }

  /** Every answer all_answers returns is stored and answers one of the
      user's assignments. */
  lemma {:induction false} AllAnswersSound(uqs: seq<UserQuestion>, t: seq<Answer>, userId: Id)
    ensures forall a :: a in AllAnswers(uqs, t, userId) ==>
      a in t &&
      exists j :: 0 <= j < |uqs| && uqs[j].userid == userId && uqs[j].id == a.uqid
  {
    if uqs != [] {
      AllAnswersSound(uqs[1..], t, userId);
      forall a | a in AllAnswers(uqs[1..], t, userId)
        ensures exists j :: 0 <= j < |uqs| && uqs[j].userid == userId && uqs[j].id == a.uqid
      {
        var j :| 0 <= j < |uqs[1..]| && uqs[1..][j].userid == userId && uqs[1..][j].id == a.uqid;
        assert uqs[j + 1] == uqs[1..][j];
      }
    }
  }

  /** An upsert keeps the table well formed; the lookup of its assignment gives
      the latest text under the first id; no other assignment's answer changes. */
  lemma PutAnswerThenGet(t: seq<Answer>, uqid: Id, text: string, other: Id)
    requires AnswersValid(t)
    ensures var r := PutAnswerRows(t, uqid, text);
            var was := GetAnswer(t, uqid);
            && AnswersValid(r)
            && |r| == (if was.Success? then |t| else |t| + 1)
            && GetAnswer(r, uqid) == Success(Answer(if was.Success? then was.value.id else |t| + 1, uqid, text))
            && (other != uqid ==> GetAnswer(r, other) == GetAnswer(t, other))
  {
    match IndexOfKey(t, AnswerKey, uqid)
    case Some(i) =>
      var x := t[i].(text := text);
      FindOneAfterSet(t, AnswerKey, i, x, other);
      FindOneAfterSet(t, AnswerKey, i, x, uqid);
    case None =>
      var x := Answer(|t| + 1, uqid, text);
      FindOneAfterAppend(t, AnswerKey, x, other);
      FindOneAfterAppend(t, AnswerKey, x, uqid);
  }

  /** Every answered assignment of the user contributes its answer. */
  lemma {:induction false} AllAnswersComplete(uqs: seq<UserQuestion>, t: seq<Answer>, userId: Id, j: nat)
    requires j < |uqs| && uqs[j].userid == userId && ToAnswer(t, uqs[j]).Some?
    ensures ToAnswer(t, uqs[j]).value in AllAnswers(uqs, t, userId)
  {
    if j > 0 {
      assert uqs[1..][j - 1] == uqs[j];
      AllAnswersComplete(uqs[1..], t, userId, j - 1);
    }
  }

  /** With assignments in creation order, the answers come out in strictly
      increasing assignment order: one per assignment, in creation order. */
  lemma {:induction false} AllAnswersOrdered(uqs: seq<UserQuestion>, t: seq<Answer>, userId: Id)
    requires Ascending(uqs, UserQuestionId)
    ensures Ascending(AllAnswers(uqs, t, userId), AnswerKey)
  {
    if uqs != [] {
      var rest := AllAnswers(uqs[1..], t, userId);
      AscendingTail(uqs, UserQuestionId);
      AllAnswersOrdered(uqs[1..], t, userId);
      AllAnswersSound(uqs[1..], t, userId);
      if uqs[0].userid == userId && ToAnswer(t, uqs[0]).Some? {
        var a := ToAnswer(t, uqs[0]).value;
        forall b | b in rest ensures AnswerKey(a) < AnswerKey(b) {
          var j :| 0 <= j < |uqs[1..]| && uqs[1..][j].userid == userId && uqs[1..][j].id == b.uqid;
          assert uqs[1..][j] == uqs[j + 1];
        }
        AscendingCons(a, rest, AnswerKey);
      }
    }
  }

  /** In a well-formed assignment table, all_answers holds at most one
      answer per assignment. */
  lemma AllAnswersDistinct(uqs: seq<UserQuestion>, t: seq<Answer>, userId: Id)
    requires UserQuestionsValid(uqs)
    ensures UniqueKeys(AllAnswers(uqs, t, userId), AnswerKey)
  {
    NumberedAscending(uqs, UserQuestionId);
    AllAnswersOrdered(uqs, t, userId);
  }

  /** An answer to a stored assignment of a stored question leads back to
      that question. */
  lemma AnswerToQuestionOfStored(uqs: seq<UserQuestion>, qs: seq<Question>, uq: UserQuestion, q: Question, a: Answer)
    requires UserQuestionsValid(uqs) && QuestionsValid(qs)
    requires uq in uqs && q in qs && uq.questionid == q.id && a.uqid == uq.id
    ensures AnswerToQuestion(uqs, qs, a) == Success(q)
  {
    var i :| 0 <= i < |uqs| && uqs[i] == uq;
    FindById(uqs, UserQuestionId, uq.id);
    ToQuestionOfStored(qs, q, uq);
  }
}
