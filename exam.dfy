/** The Exam entity: a table that holds at most one row. The first
    construction creates it in state `Stopped`; every later construction,
    whatever name it passes, gets the existing row. */
module ExamSingleton {
  import opened Wrappers
  import opened Store
  import opened Entities

  ghost predicate ExamsValid(t: seq<Exam>) {
    |t| <= 1 && Numbered(t, ExamId)
  }

  /** `Exam.new(dbl, name)` on the `exam` table. */
  function PutExamRows(t: seq<Exam>, name: string): seq<Exam> {
    if t == [] then [Exam(1, name, Stopped)] else t
  }

  /** `exam.set_state(state)` on the `exam` table: the row with the exam's id
      takes the new state. */
  function SetStateRows(t: seq<Exam>, examId: Id, state: ExamState): seq<Exam> {
    match IndexOfKey(t, ExamId, examId)
    case Some(i) => t[i := t[i].(state := state)]
    case None => t
  }

  /** First write wins: after a construction there is exactly one exam; a
      first construction makes it with the given name in state stopped, a
      later one leaves the table as it was. */
  lemma PutExamFirstWins(t: seq<Exam>, name: string)
    requires ExamsValid(t)
    ensures var r := PutExamRows(t, name);
            && ExamsValid(r) && |r| == 1 && r[0].id == 1
            && (t == [] ==> r[0].name == name && r[0].state == Stopped)
            && (t != [] ==> r == t)
  {
  }

  /** Whatever names later constructions pass, the exam keeps the first name. */
  lemma {:induction false} LaterNamesIgnored(t: seq<Exam>, first: string, later: seq<string>)
    requires ExamsValid(t)
    ensures PutAllExams(PutExamRows(t, first), later) == PutExamRows(t, first)
    ensures t == [] ==> PutAllExams(PutExamRows(t, first), later)[0].name == first
    decreases |later|
  {
    if later != [] {
      PutExamFirstWins(t, first);
      PutExamFirstWins(PutExamRows(t, first), later[0]);
      LaterNamesIgnored(t, first, later[1..]);
    }
  }

  /** A run of constructions, one per name, in order. */
  function PutAllExams(t: seq<Exam>, names: seq<string>): seq<Exam>
    decreases |names|
  {
    if names == [] then t else PutAllExams(PutExamRows(t, names[0]), names[1..])
  }

  /** `set_state` changes the state of the exam with that id and nothing else. */
  lemma SetStateOnlyState(t: seq<Exam>, examId: Id, state: ExamState)
    requires ExamsValid(t)
    ensures var r := SetStateRows(t, examId, state);
            && ExamsValid(r) && |r| == |t|
            && forall i :: 0 <= i < |t| ==>
                 r[i].id == t[i].id && r[i].name == t[i].name &&
                 r[i].state == (if t[i].id == examId then state else t[i].state)
  {
  }
}
