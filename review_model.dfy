/** A review row (`reviews` table). `is_approved` is a three-state flag:
    0 pending, 1 approved, 2 rejected; new reviews start approved. */
module ReviewModel {
  import opened Common

  const REVIEW_PENDING: int := 0
  const APPROVED: int := 1
  const REJECTED: int := 2

  class Review {
    /** Primary key, fixed once the row exists. */
    const id: nat
    /** Foreign keys, fixed once the row exists. */
    const userId: int
    const packageId: int
    var comment: string
    var rating: int
    var date: nat
    var isApproved: int

    /** `Review(...)`: the date defaults to the clock and the review starts
        approved. */
    constructor (id: nat, userId: int, packageId: int, comment: string, rating: int,
                 now: nat, date: Option<nat> := None, isApproved: int := APPROVED)
      ensures this.id == id && this.userId == userId && this.packageId == packageId
      ensures this.comment == comment && this.rating == rating
      ensures this.date == (if date.Some? then date.value else now)
      ensures this.isApproved == isApproved
    {
      this.id := id;
      this.userId := userId;
      this.packageId := packageId;
      this.comment := comment;
      this.rating := rating;
      this.date := if date.Some? then date.value else now;
      this.isApproved := isApproved;
    }
  }

  /** Whether review `v` belongs to package `packageId`, and is approved
      when `approvedOnly` asks for that. */
  predicate OfPackage(v: Review, packageId: int, approvedOnly: bool)
    reads v
  {
    v.packageId == packageId && (approvedOnly ==> v.isApproved == APPROVED)
  }

  /** The reviews of package `packageId`, in table order: each one as often
      as it occurs in `rs`, and nothing else (the `Package.reviews`
      relationship when `approvedOnly` is false). */
  function ReviewsOf(rs: seq<Review>, packageId: int, approvedOnly: bool): (vs: seq<Review>)
    reads rs
    ensures multiset(vs) <= multiset(rs)
    ensures forall x {:trigger multiset(vs)[x]} :: x in rs ==> multiset(vs)[x] == if OfPackage(x, packageId, approvedOnly) then multiset(rs)[x] else 0
    decreases |rs|
  {
    if rs == [] then []
    else
      var rest := ReviewsOf(rs[1..], packageId, approvedOnly);
      assert rs == [rs[0]] + rs[1..];
      if OfPackage(rs[0], packageId, approvedOnly) then [rs[0]] + rest else rest
  }

  /** The ratings of the reviews of package `packageId`, in table order
      (the `Package.reviews` relationship: every approval state): one
      entry per review of the package, none for any other. */
  function Ratings(rs: seq<Review>, packageId: int): (r: seq<int>)
    reads rs
    ensures |r| == |ReviewsOf(rs, packageId, false)|
    ensures forall k :: 0 <= k < |r| ==> r[k] == ReviewsOf(rs, packageId, false)[k].rating
    ensures |r| == 0 <==> forall i :: 0 <= i < |rs| ==> rs[i].packageId != packageId
  {
    var vs := ReviewsOf(rs, packageId, false);
    if vs == [] then
      assert forall i :: 0 <= i < |rs| ==> rs[i].packageId != packageId by {
        forall i | 0 <= i < |rs| ensures rs[i].packageId != packageId {
          assert multiset(vs)[rs[i]] == 0;
        }
      }
      []
    else
      assert forall k :: 0 <= k < |vs| ==> vs[k] in multiset(vs);
      assert vs[0] in rs && OfPackage(vs[0], packageId, false);
      seq(|vs|, k requires 0 <= k < |vs| reads vs => vs[k].rating)
  }
}
