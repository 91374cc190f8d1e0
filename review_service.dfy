/** `ReviewService`: the approval flag's writes, the listings of approved
    and of pending reviews, the lookup of a user's review of a package and
    the review statistics. Listings are newest first. */
module ReviewService {
  import opened Common
  import opened Queries
  import opened ReviewModel
  import opened Store

  /** `approve_review`: the review becomes approved; an unknown id is
      reported and changes nothing. */
  method ApproveReview(db: Database, reviewId: int) returns (ok: bool)
    modifies AsSet(db.FindReview(reviewId))`isApproved
    ensures ok <==> db.FindReview(reviewId).Some?
    ensures ok ==> db.FindReview(reviewId).value.isApproved == APPROVED
  {
    var review := db.FindReview(reviewId);
    if review.None? {
      return false;
    }
    review.value.isApproved := APPROVED;
    return true;
  }

  /** `reject_review`: the review becomes rejected; an unknown id is
      reported and changes nothing. */
  method RejectReview(db: Database, reviewId: int) returns (ok: bool)
    modifies AsSet(db.FindReview(reviewId))`isApproved
    ensures ok <==> db.FindReview(reviewId).Some?
    ensures ok ==> db.FindReview(reviewId).value.isApproved == REJECTED
  {
    var review := db.FindReview(reviewId);
    if review.None? {
      return false;
    }
    review.value.isApproved := REJECTED;
    return true;
  }

  /** The reviews a listing keeps: those in approval state `state`, and of
      package `packageId` when one is named. */
  predicate Selected(v: Review, packageId: Option<int>, state: int)
    reads v
  {
    v.isApproved == state && (packageId.Some? ==> v.packageId == packageId.value)
  }

  /** The selected reviews keyed by date, in table order: each selected
      review as often as it occurs in `rs`, and nothing else. */
  function SelectedRows(rs: seq<Review>, packageId: Option<int>, state: int): (r: seq<(int, Review)>)
    reads rs
    ensures forall x :: x in r ==> x.0 == x.1.date
    ensures multiset(Rows(r)) <= multiset(rs)
    ensures forall x {:trigger multiset(Rows(r))[x]} :: x in rs ==> multiset(Rows(r))[x] == if Selected(x, packageId, state) then multiset(rs)[x] else 0
    decreases |rs|
  {
    if rs == [] then []
    else
      var rest := SelectedRows(rs[1..], packageId, state);
      assert rs == [rs[0]] + rs[1..];
      RowsAppend([(rs[0].date, rs[0])], rest);
      assert Rows([(rs[0].date, rs[0])]) == [rs[0]];
      if Selected(rs[0], packageId, state) then [(rs[0].date, rs[0])] + rest else rest
  }

  /** A listing: exactly the selected reviews, each as often as it occurs,
      newest first. */
  function Listing(rs: seq<Review>, packageId: Option<int>, state: int): (r: seq<Review>)
    reads rs
    ensures forall k :: 0 <= k < |r| ==> r[k] in rs && Selected(r[k], packageId, state)
    ensures forall i :: 0 <= i < |rs| && Selected(rs[i], packageId, state) ==> rs[i] in r
    ensures forall i, j :: 0 <= i < j < |r| ==> r[i].date >= r[j].date
    ensures multiset(r) <= multiset(rs)
    ensures forall x {:trigger multiset(r)[x]} :: x in rs ==> multiset(r)[x] == if Selected(x, packageId, state) then multiset(rs)[x] else 0
  {
    var rows := SelectedRows(rs, packageId, state);
    SortedRowsSameMembers(rows, true);
    SortKeepsRows(rows, true);
    var r := Rows(SortByKey(rows, true));
    assert forall k :: 0 <= k < |r| ==> r[k] in rs && Selected(r[k], packageId, state) by {
      forall k | 0 <= k < |r| ensures r[k] in rs && Selected(r[k], packageId, state) {
        assert r[k] in multiset(r);
      }
    }
    assert forall i :: 0 <= i < |rs| && Selected(rs[i], packageId, state) ==> rs[i] in r by {
      forall i | 0 <= i < |rs| && Selected(rs[i], packageId, state) ensures rs[i] in r {
        assert rs[i] in multiset(rs);
      }
    }
    r
  }

  /** `get_package_reviews`: the approved reviews of the package. */
  function GetPackageReviews(db: Database, packageId: int): (r: seq<Review>)
    reads db, db.reviews
    ensures forall k :: 0 <= k < |r| ==> r[k] in db.reviews && r[k].packageId == packageId && r[k].isApproved == APPROVED
    ensures forall i :: 0 <= i < |db.reviews|
                          && db.reviews[i].packageId == packageId && db.reviews[i].isApproved == APPROVED
                        ==> db.reviews[i] in r
    ensures forall i, j :: 0 <= i < j < |r| ==> r[i].date >= r[j].date
    ensures multiset(r) <= multiset(db.reviews)
    ensures forall x {:trigger multiset(r)[x]} :: x in db.reviews ==>
              multiset(r)[x] == if x.packageId == packageId && x.isApproved == APPROVED then multiset(db.reviews)[x] else 0
  {
    Listing(db.reviews, Some(packageId), APPROVED)
  }

  /** `get_pending_reviews`: the reviews awaiting moderation, of every
      package. */
  function GetPendingReviews(db: Database): (r: seq<Review>)
    reads db, db.reviews
    ensures forall k :: 0 <= k < |r| ==> r[k] in db.reviews && r[k].isApproved == REVIEW_PENDING
    ensures forall i :: 0 <= i < |db.reviews| && db.reviews[i].isApproved == REVIEW_PENDING ==> db.reviews[i] in r
    ensures forall i, j :: 0 <= i < j < |r| ==> r[i].date >= r[j].date
    ensures multiset(r) <= multiset(db.reviews)
    ensures forall x {:trigger multiset(r)[x]} :: x in db.reviews ==>
              multiset(r)[x] == if x.isApproved == REVIEW_PENDING then multiset(db.reviews)[x] else 0
  {
    Listing(db.reviews, None, REVIEW_PENDING)
  }

  /** What moderation decides about a review: listed with its package once
      approved and never pending then; listed nowhere once rejected. */
  lemma ModerationDecidesListing(db: Database, v: Review)
    requires v in db.reviews
    ensures v.isApproved == APPROVED ==> v in GetPackageReviews(db, v.packageId) && v !in GetPendingReviews(db)
    ensures v.isApproved == REJECTED ==>
              v !in GetPackageReviews(db, v.packageId) && v !in GetPendingReviews(db)
    ensures v.isApproved == REVIEW_PENDING ==> v in GetPendingReviews(db) && v !in GetPackageReviews(db, v.packageId)
  {
    var i :| 0 <= i < |db.reviews| && db.reviews[i] == v;
    var listed := GetPackageReviews(db, v.packageId);
    var pending := GetPendingReviews(db);
    if v in listed {
      var k :| 0 <= k < |listed| && listed[k] == v;
    }
    if v in pending {
      var k :| 0 <= k < |pending| && pending[k] == v;
    }
  }

  /** `get_user_package_review`: the first review by `userId` of
      `packageId`. */
  function FindUserPackageReview(rs: seq<Review>, userId: int, packageId: int): (r: Option<Review>)
    reads rs
    ensures r.Some? ==> r.value in rs && r.value.userId == userId && r.value.packageId == packageId
    ensures r.None? <==> forall i :: 0 <= i < |rs| ==> !(rs[i].userId == userId && rs[i].packageId == packageId)
    decreases |rs|
  {
    if rs == [] then None
    else if rs[0].userId == userId && rs[0].packageId == packageId then Some(rs[0])
    else
      var r := FindUserPackageReview(rs[1..], userId, packageId);
      assert forall i :: 1 <= i < |rs| ==> rs[i] == rs[1..][i - 1];
      r
  }

  /** `filter_by(rating=...).count()`: none exactly when no review gives
      that rating. */
  function CountRating(rs: seq<Review>, rating: int): (n: nat)
    reads rs
    ensures n <= |rs|
    ensures n == 0 <==> forall i :: 0 <= i < |rs| ==> rs[i].rating != rating
    decreases |rs|
  {
    if rs == [] then 0
    else (if rs[0].rating == rating then 1 else 0) + CountRating(rs[1..], rating)
  }

  /** `filter_by(is_approved=...).count()`: none exactly when no review is
      in that state. */
  function CountApproval(rs: seq<Review>, state: int): (n: nat)
    reads rs
    ensures n <= |rs|
    ensures n == 0 <==> forall i :: 0 <= i < |rs| ==> rs[i].isApproved != state
    decreases |rs|
  {
    if rs == [] then 0
    else (if rs[0].isApproved == state then 1 else 0) + CountApproval(rs[1..], state)
  }

  /** The ratings of every review, for `AVG(rating)`. */
  function AllRatings(rs: seq<Review>): (r: seq<int>)
    reads rs
    ensures |r| == |rs|
    ensures forall i :: 0 <= i < |rs| ==> r[i] == rs[i].rating
  {
    seq(|rs|, i reads rs requires 0 <= i < |rs| => rs[i].rating)
  }

  /** The figures `get_review_stats` returns. */
  datatype ReviewStats = ReviewStats(
    totalReviews: nat, averageRating: real, distribution: map<int, nat>,
    pending: nat, approved: nat, rejected: nat)

  /** `get_review_stats`: the number of reviews, their average rating as
      SQL Server's `AVG` computes it over the integer rating column (the
      integer quotient, 0 when there are no reviews), how many reviews give each of the ratings 1 to 5, and
      how many are in each approval state. */
  method GetReviewStats(db: Database) returns (r: ReviewStats)
    ensures r.totalReviews == |db.reviews|
    ensures r.averageRating == IntAverage(AllRatings(db.reviews)) as real
    ensures r.distribution.Keys == {1, 2, 3, 4, 5}
    ensures forall k :: k in r.distribution ==> r.distribution[k] == CountRating(db.reviews, k)
    ensures r.pending == CountApproval(db.reviews, REVIEW_PENDING)
    ensures r.approved == CountApproval(db.reviews, APPROVED)
    ensures r.rejected == CountApproval(db.reviews, REJECTED)
  {
    var distribution: map<int, nat> := map[];
    for i := 1 to 6
      invariant forall k :: k in distribution <==> 1 <= k < i
      invariant forall k :: k in distribution ==> distribution[k] == CountRating(db.reviews, k)
    {
      distribution := distribution[i := CountRating(db.reviews, i)];
    }
    assert forall k :: k in distribution.Keys <==> k in {1, 2, 3, 4, 5};
    r := ReviewStats(|db.reviews|, IntAverage(AllRatings(db.reviews)) as real, distribution,
                     CountApproval(db.reviews, REVIEW_PENDING), CountApproval(db.reviews, APPROVED),
                     CountApproval(db.reviews, REJECTED));
  }

  /** The five buckets count each review at most once, and all of them
      exactly when every rating lies in 1..5. */
  lemma {:induction false} DistributionCovers(rs: seq<Review>)
    ensures CountRating(rs, 1) + CountRating(rs, 2) + CountRating(rs, 3) + CountRating(rs, 4) + CountRating(rs, 5)
            <= |rs|
    ensures (CountRating(rs, 1) + CountRating(rs, 2) + CountRating(rs, 3) + CountRating(rs, 4) + CountRating(rs, 5)
             == |rs|) <==> forall i :: 0 <= i < |rs| ==> 1 <= rs[i].rating <= 5
    decreases |rs|
  {
    if rs != [] {
      DistributionCovers(rs[1..]);
      assert forall i :: 1 <= i < |rs| ==> rs[i] == rs[1..][i - 1];
      if !(1 <= rs[0].rating <= 5) {
        assert !(forall i :: 0 <= i < |rs| ==> 1 <= rs[i].rating <= 5);
      }
    }
  }

  /** The three approval counts count each review at most once, and all of
      them exactly when every flag is 0, 1 or 2. */
  lemma {:induction false} ApprovalCovers(rs: seq<Review>)
    ensures CountApproval(rs, REVIEW_PENDING) + CountApproval(rs, APPROVED) + CountApproval(rs, REJECTED) <= |rs|
    ensures (CountApproval(rs, REVIEW_PENDING) + CountApproval(rs, APPROVED) + CountApproval(rs, REJECTED) == |rs|)
            <==> forall i :: 0 <= i < |rs| ==> rs[i].isApproved in {REVIEW_PENDING, APPROVED, REJECTED}
    decreases |rs|
  {
    if rs != [] {
      ApprovalCovers(rs[1..]);
      assert forall i :: 1 <= i < |rs| ==> rs[i] == rs[1..][i - 1];
      if rs[0].isApproved !in {REVIEW_PENDING, APPROVED, REJECTED} {
        assert !(forall i :: 0 <= i < |rs| ==> rs[i].isApproved in {REVIEW_PENDING, APPROVED, REJECTED});
      }
    }
  }

  /** With every rating in 1..5 the mean rating lies in [1, 5], or is 0
      when there is no review. */
  lemma AverageRatingWithin(rs: seq<Review>)
    requires forall i :: 0 <= i < |rs| ==> 1 <= rs[i].rating <= 5
    ensures |rs| == 0 ==> Mean(AllRatings(rs)) == 0.0
    ensures |rs| > 0 ==> 1.0 <= Mean(AllRatings(rs)) <= 5.0
  {
    if |rs| > 0 {
      MeanWithin(AllRatings(rs), 1, 5);
    }
  }

  /** With every rating in 1..5 the statistics' average is 0 without
      reviews and otherwise a whole number in [1, 5], at most the exact
      mean and less than one below it. */
  lemma StatsAverageWithin(rs: seq<Review>)
    requires forall i :: 0 <= i < |rs| ==> 1 <= rs[i].rating <= 5
    ensures |rs| == 0 ==> IntAverage(AllRatings(rs)) == 0
    ensures |rs| > 0 ==> 1 <= IntAverage(AllRatings(rs)) <= 5
    ensures |rs| > 0 ==> IntAverage(AllRatings(rs)) as real <= Mean(AllRatings(rs)) < IntAverage(AllRatings(rs)) as real + 1.0
  {
    if |rs| > 0 {
      var xs := AllRatings(rs);
      IntAverageWithin(xs, 1, 5);
      SumWithin(xs, 1, 5);
      IntAverageTruncates(xs);
    }
  }
}
