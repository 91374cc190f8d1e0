/** A travel package row (`packages` table): constructor defaults, the
    image list kept as one comma-joined string, and the average rating over
    the package's reviews. */
module PackageModel {
  import opened Common
  import opened Text
  import opened Queries
  import opened ReviewModel

  /** `max_travelers` when none is given: travellers admitted per date. */
  const DEFAULT_MAX_TRAVELERS: int := 20

  /** The `images` column as a list: its comma-separated fields, or no
      image when the column is null or empty. */
  function ImageList(images: Option<string>): (r: seq<string>)
    ensures images.None? || images.value == "" ==> r == []
    ensures images.Some? && images.value != "" ==> r == Split(images.value, ',') && |r| >= 1
  {
    if images.Some? && images.value != "" then Split(images.value, ',') else []
  }

  class Package {
    /** Primary key, fixed once the row exists. */
    const id: nat
    var destination: string
    var description: Option<string>
    var price: real
    /** Length of the trip in days. */
    var duration: int
    var includedServices: Option<string>
    /** File names joined with ','. */
    var images: Option<string>
    var availability: bool
    var maxTravelers: int
    var difficultyLevel: Option<string>
    var season: Option<string>
    var createdAt: nat

    /** `Package(...)`: available and admitting 20 travellers per date unless
        told otherwise; the optional detail columns start null. */
    constructor (id: nat, destination: string, description: Option<string>, price: real,
                 duration: int, now: nat, includedServices: Option<string> := None,
                 images: Option<string> := None, availability: bool := true,
                 maxTravelers: int := DEFAULT_MAX_TRAVELERS)
      ensures this.id == id && this.destination == destination
      ensures this.description == description && this.price == price
      ensures this.duration == duration && this.includedServices == includedServices
      ensures this.images == images && this.availability == availability
      ensures this.maxTravelers == maxTravelers
      ensures this.difficultyLevel == None && this.season == None
      ensures this.createdAt == now
    {
      this.id := id;
      this.destination := destination;
      this.description := description;
      this.price := price;
      this.duration := duration;
      this.includedServices := includedServices;
      this.images := images;
      this.availability := availability;
      this.maxTravelers := maxTravelers;
      this.difficultyLevel := None;
      this.season := None;
      this.createdAt := now;
    }

    /** The `images` entry of `to_dict`. */
    function ImageNames(): (r: seq<string>)
      reads this
    {
      ImageList(images)
    }

    /** `get_average_rating` over the reviews table (the `reviews`
        relationship, every approval state): 0 without reviews, else the
        mean, which stays within the bounds every rating keeps. */
    function GetAverageRating(reviews: seq<Review>): (r: real)
      reads this, reviews
      ensures (forall i :: 0 <= i < |reviews| ==> reviews[i].packageId != id) ==> r == 0.0
      ensures (exists i :: 0 <= i < |reviews| && reviews[i].packageId == id)
              ==> r == Sum(Ratings(reviews, id)) as real / |ReviewsOf(reviews, id, false)| as real
      ensures (exists i :: 0 <= i < |reviews| && reviews[i].packageId == id)
              && (forall i :: 0 <= i < |reviews| && reviews[i].packageId == id
                    ==> 1 <= reviews[i].rating <= 5)
              ==> 1.0 <= r <= 5.0
    {
      RatingsMeanWithin(reviews, id);
      Mean(Ratings(reviews, id))
    }
  }

  /** The mean of a package's ratings keeps the 1..5 bounds they all keep. */
  lemma RatingsMeanWithin(reviews: seq<Review>, packageId: int)
    ensures (exists i :: 0 <= i < |reviews| && reviews[i].packageId == packageId)
            && (forall i :: 0 <= i < |reviews| && reviews[i].packageId == packageId
                  ==> 1 <= reviews[i].rating <= 5)
            ==> 1.0 <= Mean(Ratings(reviews, packageId)) <= 5.0
  {
    var xs := Ratings(reviews, packageId);
    if |xs| > 0 && forall i :: 0 <= i < |reviews| && reviews[i].packageId == packageId ==> 1 <= reviews[i].rating <= 5 {
      var vs := ReviewsOf(reviews, packageId, false);
      forall k | 0 <= k < |xs| ensures 1 <= xs[k] <= 5 {
        assert vs[k] in multiset(vs);
        var i :| 0 <= i < |reviews| && reviews[i] == vs[k];
      }
      MeanWithin(xs, 1, 5);
    }
  }
}
