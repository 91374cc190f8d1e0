/** `review_controller`: creating and editing reviews, the average shown
    with a package's reviews, and the comment preview of the home-page
    listings. Ratings are whole stars from 1 to 5. */
module ReviewController {
  import opened Common
  import opened Text
  import opened Queries
  import opened UserModel
  import opened ReviewModel
  import opened Store
  import BookingService
  import ReviewService

  const MIN_RATING: int := 1
  const MAX_RATING: int := 5
  const COMMENT_PREVIEW: int := 100

  predicate RatingInRange(rating: int)
  {
    MIN_RATING <= rating <= MAX_RATING
  }

  /** No user has reviewed the same package twice. */
  ghost predicate OneReviewPerPair(rs: seq<Review>)
    reads rs
  {
    forall i, j :: 0 <= i < j < |rs| ==> !(rs[i].userId == rs[j].userId && rs[i].packageId == rs[j].packageId)
  }

  /** Every stored rating is a whole number of stars from 1 to 5. */
  ghost predicate RatingsInRange(rs: seq<Review>)
    reads rs
  {
    forall i :: 0 <= i < |rs| ==> RatingInRange(rs[i].rating)
  }

  /** The checks of `create_review` before it inserts: package id, comment
      and rating are required (400); the rating must be 1 to 5 (400);
      reading the id of a missing caller raises; a caller who has not
      travelled the package is refused unless an admin (403); a second
      review of the same package conflicts (409). */
  function ReviewGate(db: Database, current: Option<User>, packageId: Option<int>, comment: Option<string>,
                      rating: Option<int>, today: int)
    : (r: Result<Guard>)
    reads db, db.bookings, db.reviews, AsSet(current)
    ensures r == Ok(Deny(BAD_REQUEST)) <==>
              !GivenInt(packageId) || !GivenText(comment) || rating.None? || !RatingInRange(rating.value)
    ensures r.Raise? <==>
              GivenInt(packageId) && GivenText(comment) && rating.Some? && RatingInRange(rating.value)
              && current.None?
    ensures r.Raise? ==> r.exc == AttributeError
    ensures r == Ok(Deny(FORBIDDEN)) <==>
              GivenInt(packageId) && GivenText(comment) && rating.Some? && RatingInRange(rating.value)
              && current.Some? && current.value.role != ADMIN
              && !BookingService.HasUserTraveled(db, current.value.id, packageId.value, today)
    ensures r == Ok(Deny(CONFLICT)) ==>
              ReviewService.FindUserPackageReview(db.reviews, current.value.id, packageId.value).Some?
    ensures r == Ok(Pass) <==>
              GivenInt(packageId) && GivenText(comment) && rating.Some? && RatingInRange(rating.value)
              && current.Some?
              && (current.value.role == ADMIN || BookingService.HasUserTraveled(db, current.value.id, packageId.value, today))
              && forall i :: 0 <= i < |db.reviews| ==>
                   !(db.reviews[i].userId == current.value.id && db.reviews[i].packageId == packageId.value)
    ensures r.Ok? && r.value.Deny? ==> r.value.code in {BAD_REQUEST, FORBIDDEN, CONFLICT}
  {
    if !GivenInt(packageId) || !GivenText(comment) || rating.None? then Ok(Deny(BAD_REQUEST))
    else if rating.value < MIN_RATING || rating.value > MAX_RATING then Ok(Deny(BAD_REQUEST))
    else if current.None? then Raise(AttributeError)
    else if !BookingService.HasUserTraveled(db, current.value.id, packageId.value, today)
            && current.value.role != ADMIN then Ok(Deny(FORBIDDEN))
    else if ReviewService.FindUserPackageReview(db.reviews, current.value.id, packageId.value).Some? then
      Ok(Deny(CONFLICT))
    else Ok(Pass)
  }

  /** A user who has reviewed a package is refused a second review of it,
      whatever the rest of the request. */
  lemma SecondReviewConflicts(db: Database, current: User, v: Review, comment: string, rating: int, today: int)
    requires v in db.reviews && v.userId == current.id && v.packageId != 0
    requires comment != "" && RatingInRange(rating)
    ensures ReviewGate(db, Some(current), Some(v.packageId), Some(comment), Some(rating), today)
            in {Ok(Deny(FORBIDDEN)), Ok(Deny(CONFLICT))}
    ensures current.role == ADMIN ==>
              ReviewGate(db, Some(current), Some(v.packageId), Some(comment), Some(rating), today)
              == Ok(Deny(CONFLICT))
  {
    var i :| 0 <= i < |db.reviews| && db.reviews[i] == v;
  }

  /** `create_review`: past its checks the review is inserted, dated now and
      approved, and answered with 201. The package and user are foreign
      keys: a review of a package that does not exist fails at commit.
      One review per (user, package) and the rating bounds are kept. */
  method CreateReview(db: Database, current: Option<User>, packageId: Option<int>, comment: Option<string>,
                      rating: Option<int>, today: int, now: nat)
    returns (r: Result<nat>)
    requires db.Valid()
    requires current.Some? ==> current.value in db.users
    modifies db`reviews, db`nextId
    ensures db.Valid()
    ensures old(ReviewGate(db, current, packageId, comment, rating, today)).Raise? ==>
              r == Raise(AttributeError)
    ensures old(ReviewGate(db, current, packageId, comment, rating, today)) == Ok(Pass) ==>
              r == (if db.FindPackage(packageId.value).Some? then Ok(CREATED) else Raise(DatabaseError))
    ensures old(ReviewGate(db, current, packageId, comment, rating, today)).Ok?
            && old(ReviewGate(db, current, packageId, comment, rating, today)).value.Deny? ==>
              r == Ok(old(ReviewGate(db, current, packageId, comment, rating, today)).value.code)
    ensures r != Ok(CREATED) ==> db.reviews == old(db.reviews) && db.nextId == old(db.nextId)
    ensures r == Ok(CREATED) ==>
              |db.reviews| == |old(db.reviews)| + 1 && db.reviews[..|old(db.reviews)|] == old(db.reviews)
              && var v := db.reviews[|old(db.reviews)|];
                 v.id == old(db.nextId) && v.userId == current.value.id && v.packageId == packageId.value
                 && v.comment == comment.value && v.rating == rating.value && v.date == now
                 && v.isApproved == APPROVED
    ensures old(OneReviewPerPair(db.reviews)) ==> OneReviewPerPair(db.reviews)
    ensures old(RatingsInRange(db.reviews)) ==> RatingsInRange(db.reviews)
  {
    var gate := ReviewGate(db, current, packageId, comment, rating, today);
    if gate.Raise? {
      return Raise(gate.exc);
    }
    if gate.value.Deny? {
      return Ok(gate.value.code);
    }
    if db.FindPackage(packageId.value).None? {
      return Raise(DatabaseError);
    }
    var v := new Review(db.nextId, current.value.id, packageId.value, comment.value, rating.value, now, Some(now));
    db.AddReview(v);
    return Ok(CREATED);
  }

  /** The checks of `update_review` before it commits: the review must
      exist (404); reading the id of a missing caller raises; only the
      author or an admin may edit (403); a rating in the request must be
      1 to 5 (400). */
  function UpdateGate(db: Database, current: Option<User>, reviewId: int, rating: Option<int>): (r: Result<Guard>)
    reads db`reviews, AsSet(db.FindReview(reviewId)), AsSet(current)
    ensures r == Ok(Deny(NOT_FOUND)) <==> db.FindReview(reviewId).None?
    ensures r.Raise? <==> db.FindReview(reviewId).Some? && current.None?
    ensures r.Raise? ==> r.exc == AttributeError
    ensures r == Ok(Pass) <==>
              db.FindReview(reviewId).Some? && current.Some?
              && (db.FindReview(reviewId).value.userId == current.value.id || current.value.role == ADMIN)
              && (rating.Some? ==> RatingInRange(rating.value))
    ensures r == Ok(Deny(FORBIDDEN)) <==>
              db.FindReview(reviewId).Some? && current.Some?
              && db.FindReview(reviewId).value.userId != current.value.id && current.value.role != ADMIN
    ensures r.Ok? && r.value.Deny? ==> r.value.code in {NOT_FOUND, FORBIDDEN, BAD_REQUEST}
  {
    var review := db.FindReview(reviewId);
    if review.None? then Ok(Deny(NOT_FOUND))
    else if current.None? then Raise(AttributeError)
    else if review.value.userId != current.value.id && current.value.role != ADMIN then Ok(Deny(FORBIDDEN))
    else if rating.Some? && (rating.value < MIN_RATING || rating.value > MAX_RATING) then Ok(Deny(BAD_REQUEST))
    else Ok(Pass)
  }

  /** `update_review`: past its checks a truthy comment and a present
      rating overwrite the stored ones and the change is committed. The
      handler writes the comment before it checks the rating, but a refusal
      returns without a commit and the session is discarded, so a refused
      request changes nothing that is stored. */
  method UpdateReview(db: Database, current: Option<User>, reviewId: int, comment: Option<string>,
                      rating: Option<int>)
    returns (r: Result<nat>)
    modifies AsSet(db.FindReview(reviewId))`comment, AsSet(db.FindReview(reviewId))`rating
    ensures old(UpdateGate(db, current, reviewId, rating)).Raise? ==>
              r == Raise(AttributeError)
    ensures old(UpdateGate(db, current, reviewId, rating)).Ok?
            && old(UpdateGate(db, current, reviewId, rating)).value.Deny? ==>
              r == Ok(old(UpdateGate(db, current, reviewId, rating)).value.code)
    ensures r == Ok(OK) <==> old(UpdateGate(db, current, reviewId, rating)) == Ok(Pass)
    ensures r != Ok(OK) ==> unchanged(AsSet(db.FindReview(reviewId)))
    ensures r == Ok(OK) ==>
              var v := db.FindReview(reviewId).value;
              v.comment == (if GivenText(comment) then comment.value else old(v.comment))
              && v.rating == (if rating.Some? then rating.value else old(v.rating))
    ensures old(RatingsInRange(db.reviews)) ==> RatingsInRange(db.reviews)
  {
    var gate := UpdateGate(db, current, reviewId, rating);
    if gate.Raise? {
      return Raise(gate.exc);
    }
    if gate.value.Deny? {
      return Ok(gate.value.code);
    }
    var v := db.FindReview(reviewId).value;
    if GivenText(comment) {
      v.comment := comment.value;
    }
    if rating.Some? {
      v.rating := rating.value;
    }
    return Ok(OK);
  }

  /** The `average_rating` of `get_package_reviews`: the sum of the ratings
      of the package's approved reviews over how many there are, 0 when it
      has none. */
  function PackageAverageRating(db: Database, packageId: int): (r: real)
    reads db, db.reviews
    ensures ReviewService.GetPackageReviews(db, packageId) == [] ==> r == 0.0
    ensures ReviewService.GetPackageReviews(db, packageId) != [] ==>
              r == Sum(ReviewService.AllRatings(ReviewService.GetPackageReviews(db, packageId))) as real
                   / |ReviewService.GetPackageReviews(db, packageId)| as real
  {
    Mean(ReviewService.AllRatings(ReviewService.GetPackageReviews(db, packageId)))
  }

  /** With every stored rating in 1..5, the average lies in [1, 5] as soon
      as the package has an approved review, and is 0 exactly when it has
      none. */
  lemma PackageAverageWithin(db: Database, packageId: int)
    requires RatingsInRange(db.reviews)
    ensures (PackageAverageRating(db, packageId) == 0.0) <==>
            forall i :: 0 <= i < |db.reviews| ==> !(db.reviews[i].packageId == packageId && db.reviews[i].isApproved == APPROVED)
    ensures ReviewService.GetPackageReviews(db, packageId) != [] ==> 1.0 <= PackageAverageRating(db, packageId) <= 5.0
  {
    var listed := ReviewService.GetPackageReviews(db, packageId);
    forall k | 0 <= k < |listed|
      ensures RatingInRange(listed[k].rating)
    {
      var i :| 0 <= i < |db.reviews| && db.reviews[i] == listed[k];
    }
    ReviewService.AverageRatingWithin(listed);
    if listed != [] {
      var i :| 0 <= i < |db.reviews| && db.reviews[i] == listed[0];
      assert db.reviews[i].packageId == packageId && db.reviews[i].isApproved == APPROVED;
    }
  }

  /** The comment shown by the recent and top-rated listings: at most 100
      characters, then "..." when the comment was cut. */
  function CommentPreview(comment: string): (r: string)
    ensures |comment| <= COMMENT_PREVIEW ==> r == comment
    ensures |comment| > COMMENT_PREVIEW ==> |r| == COMMENT_PREVIEW + 3 && r == comment[..COMMENT_PREVIEW] + "..."
  {
    Preview(comment, COMMENT_PREVIEW)
  }

  /** Previewing a preview changes nothing: the cut keeps the same first
      100 characters. */
  lemma PreviewIdempotent(comment: string)
    ensures CommentPreview(CommentPreview(comment)) == CommentPreview(comment)
  {
    if |comment| > COMMENT_PREVIEW {
      var p := CommentPreview(comment);
      assert p[..COMMENT_PREVIEW] == comment[..COMMENT_PREVIEW];
    }
  }
}
