/** The Question entity: upsert by `(number, variant)`; a key-only lookup of
    an unregistered pair raises DBLayerError. */
module QuestionCatalog {
  import opened Wrappers
  import opened Store
  import opened Entities

  ghost predicate QuestionsValid(t: seq<Question>) {
    Numbered(t, QuestionId) && UniqueKeys(t, QuestionKey)
  }

  /** `Question.new(dbl, number, variant)`. */
  function GetQuestion(t: seq<Question>, number: int, variant: int): (r: Result<Question, DBLayerError>)
    ensures r.Failure? <==> forall j :: 0 <= j < |t| ==> (t[j].number, t[j].variant) != (number, variant)
    ensures r.Failure? ==> r.error == NotFound
    ensures r.Success? ==> r.value in t && r.value.number == number && r.value.variant == variant
  {
    match FindOne(t, QuestionKey, (number, variant))
    case Some(q) => Success(q)
    case None => Failure(NotFound)
  }

  /** The question a surrogate id refers to. */
  function QuestionById(t: seq<Question>, id: Id): (r: Result<Question, DBLayerError>)
    ensures r.Success? ==> r.value in t && r.value.id == id
    ensures r.Failure? <==> forall j :: 0 <= j < |t| ==> t[j].id != id
  {
    match FindOne(t, QuestionId, id)
    case Some(q) => Success(q)
    case None => Failure(NotFound)
  }

  /** `Question.new(dbl, number, variant, text)` on the `questions` table. */
  function PutQuestionRows(t: seq<Question>, number: int, variant: int, text: string): seq<Question> {
    match IndexOfKey(t, QuestionKey, (number, variant))
    case Some(i) => t[i := t[i].(text := text)]
    case None => t + [Question(|t| + 1, number, variant, text)]
  }

  /** An upsert keeps the table well formed; the lookup of its pair gives the
      latest text under the first id; the lookup of any other pair, another
      variant of the same number included, is unchanged. */
  lemma PutQuestionThenGet(t: seq<Question>, number: int, variant: int, text: string, n: int, v: int)
    requires QuestionsValid(t)
    ensures var r := PutQuestionRows(t, number, variant, text);
            var was := GetQuestion(t, number, variant);
            && QuestionsValid(r)
            && |r| == (if was.Success? then |t| else |t| + 1)
            && GetQuestion(r, number, variant)
               == Success(Question(if was.Success? then was.value.id else |t| + 1, number, variant, text))
            && ((n, v) != (number, variant) ==> GetQuestion(r, n, v) == GetQuestion(t, n, v))
  {
    match IndexOfKey(t, QuestionKey, (number, variant))
    case Some(i) =>
      var x := t[i].(text := text);
      FindOneAfterSet(t, QuestionKey, i, x, (n, v));
      FindOneAfterSet(t, QuestionKey, i, x, (number, variant));
    case None =>
      var x := Question(|t| + 1, number, variant, text);
      FindOneAfterAppend(t, QuestionKey, x, (n, v));
      FindOneAfterAppend(t, QuestionKey, x, (number, variant));
  }

  /** In a well-formed catalog, the id of a stored question resolves to it. */
  lemma QuestionByIdOfStored(t: seq<Question>, q: Question)
    requires QuestionsValid(t) && q in t
    ensures QuestionById(t, q.id) == Success(q)
  {
    var i :| 0 <= i < |t| && t[i] == q;
    FindById(t, QuestionId, q.id);
  }
}
