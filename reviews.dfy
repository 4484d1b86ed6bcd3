/** The UserReview entity (a reviewer assigned to an assignment; append-only)
    and the Review entity (the grade for a review assignment, upserted by
    `revid`), with the queries built on them. */
module ReviewStore {
  import opened Wrappers
  import opened Store
  import opened Entities

  ghost predicate UserReviewsValid(t: seq<UserReview>) {
    Numbered(t, UserReviewId)
  }

  ghost predicate ReviewsValid(t: seq<Review>) {
    Numbered(t, ReviewId) && UniqueKeys(t, ReviewKey)
  }

  /** `UserReview.new(dbl, userid, userquestionid)`: always a new row; the
      reviewer may be the author of the assignment. */
  function CreateUserReviewRows(t: seq<UserReview>, userid: Id, userquestionid: Id): seq<UserReview> {
    t + [UserReview(|t| + 1, userid, userquestionid)]
  }

  /** `reviewer.is_assigned_userreview(urid)`. */
  function IsAssignedUserReview(urs: seq<UserReview>, reviewerId: Id, urid: Id): (r: bool)
    ensures r ==> exists j :: 0 <= j < |urs| && urs[j].id == urid && urs[j].userid == reviewerId
    ensures UniqueKeys(urs, UserReviewId) ==>
      (r <==> exists j :: 0 <= j < |urs| && urs[j].id == urid && urs[j].userid == reviewerId)
  {
    match FindOne(urs, UserReviewId, urid)
    case Some(ur) => ur.userid == reviewerId
    case None =>
      false
  }

  /** `Review.new(dbl, revid)`. */
  function GetReview(t: seq<Review>, revid: Id): (r: Result<Review, DBLayerError>)
    ensures r.Failure? <==> forall j :: 0 <= j < |t| ==> t[j].revid != revid
    ensures r.Failure? ==> r.error == NotFound
    ensures r.Success? ==> r.value in t && r.value.revid == revid
  {
    match FindOne(t, ReviewKey, revid)
    case Some(rv) => Success(rv)
    case None => Failure(NotFound)
  }

  /** `Review.new(dbl, revid, grade, text)` on the `reviews` table. */
  function PutReviewRows(t: seq<Review>, revid: Id, grade: int, text: string): seq<Review> {
    match IndexOfKey(t, ReviewKey, revid)
    case Some(i) => t[i := t[i].(grade := grade, text := text)]
    case None => t + [Review(|t| + 1, revid, grade, text)]
  }

  /** The review assignment `urid` has been done. */
  predicate HasReview(t: seq<Review>, urid: Id) {
    GetReview(t, urid).Success?
  }

  /** How many review assignments reviewer `reviewerId` holds. */
  function AssignedCount(urs: seq<UserReview>, reviewerId: Id): nat {
    if urs == [] then 0
    else (if urs[0].userid == reviewerId then 1 else 0) + AssignedCount(urs[1..], reviewerId)
  }

  /** `reviewer.n_reviews`: the reviewer's review assignments that have a
      Review row, not the assignments themselves. */
  function NReviews(urs: seq<UserReview>, t: seq<Review>, reviewerId: Id): (n: nat)
    ensures n <= AssignedCount(urs, reviewerId)
  {
    if urs == [] then 0
    else (if urs[0].userid == reviewerId && HasReview(t, urs[0].id) then 1 else 0) + NReviews(urs[1..], t, reviewerId)
  }

  /** `answer.all_reviews`: the Reviews of the answer's review assignments
      that have one, in the order the review assignments were created. */
  function AllReviews(urs: seq<UserReview>, t: seq<Review>, a: Answer): (r: seq<Review>)
    ensures |r| <= |urs|
  {
    if urs == [] then []
    else
      var rest := AllReviews(urs[1..], t, a);
      if urs[0].userquestionid == a.uqid then
        match GetReview(t, urs[0].id)
        case Success(rv) => [rv] + rest
        case Failure(_) => rest
      else rest
  }

  /** Every Review all_reviews returns is stored and belongs to a review
      assignment of the answer's assignment. */
  lemma {:induction false} AllReviewsSound(urs: seq<UserReview>, t: seq<Review>, a: Answer)
    ensures forall rv :: rv in AllReviews(urs, t, a) ==>
      rv in t &&
      exists j :: 0 <= j < |urs| && urs[j].userquestionid == a.uqid && urs[j].id == rv.revid
  {
    if urs != [] {
      AllReviewsSound(urs[1..], t, a);
      forall rv | rv in AllReviews(urs[1..], t, a)
        ensures exists j :: 0 <= j < |urs| && urs[j].userquestionid == a.uqid && urs[j].id == rv.revid
      {
        var j :| 0 <= j < |urs[1..]| && urs[1..][j].userquestionid == a.uqid && urs[1..][j].id == rv.revid;
        assert urs[j + 1] == urs[1..][j];
      }
    }
  }

  /** An upsert keeps the table well formed; the lookup of its revid gives
      the latest grade and text under the first id; no other revid changes. */
  lemma PutReviewThenGet(t: seq<Review>, revid: Id, grade: int, text: string, other: Id)
    requires ReviewsValid(t)
    ensures var r := PutReviewRows(t, revid, grade, text);
            var was := GetReview(t, revid);
            && ReviewsValid(r)
            && |r| == (if was.Success? then |t| else |t| + 1)
            && GetReview(r, revid) == Success(Review(if was.Success? then was.value.id else |t| + 1, revid, grade, text))
            && (other != revid ==> GetReview(r, other) == GetReview(t, other))
  {
    match IndexOfKey(t, ReviewKey, revid)
    case Some(i) =>
      var x := t[i].(grade := grade, text := text);
      FindOneAfterSet(t, ReviewKey, i, x, other);
      FindOneAfterSet(t, ReviewKey, i, x, revid);
    case None =>
      var x := Review(|t| + 1, revid, grade, text);
      FindOneAfterAppend(t, ReviewKey, x, other);
      FindOneAfterAppend(t, ReviewKey, x, revid);
  }

  /** A new review assignment belongs to its reviewer and to no one else, and
      leaves every earlier assignment's owner as it was. */
  lemma CreateUserReviewAssigns(urs: seq<UserReview>, userid: Id, uqid: Id, reviewerId: Id, urid: Id)
    requires UserReviewsValid(urs)
    ensures var r := CreateUserReviewRows(urs, userid, uqid);
            && UserReviewsValid(r)
            && IsAssignedUserReview(r, reviewerId, |urs| + 1) == (reviewerId == userid)
            && (urid != |urs| + 1 ==> IsAssignedUserReview(r, reviewerId, urid) == IsAssignedUserReview(urs, reviewerId, urid))
  {
    AppendNumbered(urs, UserReviewId, UserReview(|urs| + 1, userid, uqid));
  }

  /** A reviewer none of whose assignments has a review has done none. */
  lemma {:induction false} NReviewsNoneDone(urs: seq<UserReview>, t: seq<Review>, reviewerId: Id)
    requires forall j :: 0 <= j < |urs| && urs[j].userid == reviewerId ==> !HasReview(t, urs[j].id)
    ensures NReviews(urs, t, reviewerId) == 0
  {
    if urs != [] {
      assert forall j :: 0 <= j < |urs[1..]| ==> urs[1..][j] == urs[j + 1];
      NReviewsNoneDone(urs[1..], t, reviewerId);
    }
  }

  /** A reviewer all of whose assignments have a review has done all of them. */
  lemma {:induction false} NReviewsAllDone(urs: seq<UserReview>, t: seq<Review>, reviewerId: Id)
    requires forall j :: 0 <= j < |urs| && urs[j].userid == reviewerId ==> HasReview(t, urs[j].id)
    ensures NReviews(urs, t, reviewerId) == AssignedCount(urs, reviewerId)
  {
    if urs != [] {
      assert forall j :: 0 <= j < |urs[1..]| ==> urs[1..][j] == urs[j + 1];
      NReviewsAllDone(urs[1..], t, reviewerId);
    }
  }

  /** A Review upsert raises the reviewer's count by one exactly when it is the
      first review for one of that reviewer's assignments. */
  lemma {:induction false} NReviewsAfterPut(urs: seq<UserReview>, t: seq<Review>, reviewerId: Id, revid: Id, grade: int, text: string)
    requires UniqueKeys(urs, UserReviewId) && ReviewsValid(t)
    ensures NReviews(urs, PutReviewRows(t, revid, grade, text), reviewerId)
         == NReviews(urs, t, reviewerId)
            + (if IsAssignedUserReview(urs, reviewerId, revid) && !HasReview(t, revid) then 1 else 0)
  {
    if urs != [] {
      var t' := PutReviewRows(t, revid, grade, text);
      var tail := urs[1..];
      assert UniqueKeys(tail, UserReviewId) by {
        forall i, j | 0 <= i < j < |tail| ensures UserReviewId(tail[i]) != UserReviewId(tail[j]) {
          assert tail[i] == urs[i + 1] && tail[j] == urs[j + 1];
        }
      }
      NReviewsAfterPut(tail, t, reviewerId, revid, grade, text);
      PutReviewThenGet(t, revid, grade, text, urs[0].id);
      if urs[0].id == revid {
        assert forall j :: 0 <= j < |tail| ==> tail[j].id != revid by {
          forall j | 0 <= j < |tail| ensures tail[j].id != revid {
            assert tail[j] == urs[j + 1];
            assert UserReviewId(urs[0]) != UserReviewId(urs[j + 1]);
          }
        }
        assert !IsAssignedUserReview(tail, reviewerId, revid);
        FindOneUnique(urs, UserReviewId, 0);
      } else {
        assert FindOne(urs, UserReviewId, revid) == FindOne(tail, UserReviewId, revid);
      }
    }
  }

  /** Every done review assignment of the answer contributes its Review. */
  lemma {:induction false} AllReviewsComplete(urs: seq<UserReview>, t: seq<Review>, a: Answer, j: nat)
    requires j < |urs| && urs[j].userquestionid == a.uqid && HasReview(t, urs[j].id)
    ensures GetReview(t, urs[j].id).value in AllReviews(urs, t, a)
  {
    if j > 0 {
      assert urs[1..][j - 1] == urs[j];
      AllReviewsComplete(urs[1..], t, a, j - 1);
    }
  }

  /** With review assignments in creation order, the Reviews come out in
      strictly increasing review-assignment order. */
  lemma {:induction false} AllReviewsOrdered(urs: seq<UserReview>, t: seq<Review>, a: Answer)
    requires Ascending(urs, UserReviewId)
    ensures Ascending(AllReviews(urs, t, a), ReviewKey)
  {
    if urs != [] {
      var rest := AllReviews(urs[1..], t, a);
      AscendingTail(urs, UserReviewId);
      AllReviewsOrdered(urs[1..], t, a);
      AllReviewsSound(urs[1..], t, a);
      if urs[0].userquestionid == a.uqid && HasReview(t, urs[0].id) {
        var rv := GetReview(t, urs[0].id).value;
        forall b | b in rest ensures ReviewKey(rv) < ReviewKey(b) {
          var j :| 0 <= j < |urs[1..]| && urs[1..][j].userquestionid == a.uqid && urs[1..][j].id == b.revid;
          assert urs[1..][j] == urs[j + 1];
        }
        AscendingCons(rv, rest, ReviewKey);
      }
    }
  }

  /** In a well-formed review-assignment table, all_reviews holds at most one
      Review per review assignment. */
  lemma AllReviewsDistinct(urs: seq<UserReview>, t: seq<Review>, a: Answer)
    requires UserReviewsValid(urs)
    ensures UniqueKeys(AllReviews(urs, t, a), ReviewKey)
  {
    NumberedAscending(urs, UserReviewId);
    AllReviewsOrdered(urs, t, a);
  }
}
