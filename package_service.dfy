/** `PackageService`: the availability flag of a package, the catalogue
    queries (search with optional filters, price and duration ranges,
    similar packages) and the ranking by bookings. Queries without
    `ORDER BY` return rows in table order. */
module PackageService {
  import opened Common
  import opened Text
  import opened Queries
  import opened PackageModel
  import opened BookingModel
  import opened Store

  /** `toggle_availability`: the flag flips, so a second call restores it;
      an unknown id is reported and changes nothing. */
  method ToggleAvailability(db: Database, packageId: int) returns (ok: bool)
    modifies AsSet(db.FindPackage(packageId))`availability
    ensures ok <==> db.FindPackage(packageId).Some?
    ensures ok ==> db.FindPackage(packageId).value.availability == !old(db.FindPackage(packageId).value.availability)
  {
    var package := db.FindPackage(packageId);
    if package.None? {
      return false;
    }
    package.value.availability := !package.value.availability;
    return true;
  }

  /** The optional filters of `search_packages`; an absent key is `None`. */
  datatype SearchFilters = SearchFilters(
    minPrice: Option<real>, maxPrice: Option<real>, minDuration: Option<int>, maxDuration: Option<int>,
    difficulty: Option<string>, season: Option<string>)

  const NO_FILTERS := SearchFilters(None, None, None, None, None, None)

  /** The text condition of `search_packages`: the query occurs in the
      destination or in the description, ignoring case. */
  predicate TextMatches(p: Package, query: string)
    reads p
  {
    ContainsIgnoringCase(p.destination, query)
    || (p.description.Some? && ContainsIgnoringCase(p.description.value, query))
  }

  /** Every filter present holds of the package. A null difficulty or
      season matches no filter on it. */
  predicate FiltersHold(p: Package, f: SearchFilters)
    reads p
  {
    (f.minPrice.Some? ==> p.price >= f.minPrice.value)
    && (f.maxPrice.Some? ==> p.price <= f.maxPrice.value)
    && (f.minDuration.Some? ==> p.duration >= f.minDuration.value)
    && (f.maxDuration.Some? ==> p.duration <= f.maxDuration.value)
    && (f.difficulty.Some? ==> p.difficultyLevel == Some(f.difficulty.value))
    && (f.season.Some? ==> p.season.Some? && Contains(p.season.value, f.season.value))
  }

  /** `f` asks for everything `g` asks for, and perhaps more. */
  predicate Extends(f: SearchFilters, g: SearchFilters)
  {
    (g.minPrice.Some? ==> f.minPrice == g.minPrice)
    && (g.maxPrice.Some? ==> f.maxPrice == g.maxPrice)
    && (g.minDuration.Some? ==> f.minDuration == g.minDuration)
    && (g.maxDuration.Some? ==> f.maxDuration == g.maxDuration)
    && (g.difficulty.Some? ==> f.difficulty == g.difficulty)
    && (g.season.Some? ==> f.season == g.season)
  }

  /** The catalogue queries. */
  datatype PackageQuery =
    | Search(query: string, filters: SearchFilters)
    | PriceRange(minPrice: real, maxPrice: real)
    | DurationRange(minDays: int, maxDays: int)
    | SimilarTo(packageId: int, duration: int, price: real)

  predicate Satisfies(p: Package, q: PackageQuery)
    reads p
  {
    match q
    case Search(query, filters) => TextMatches(p, query) && FiltersHold(p, filters)
    case PriceRange(lo, hi) => lo <= p.price <= hi && p.availability
    case DurationRange(lo, hi) => lo <= p.duration <= hi && p.availability
    case SimilarTo(id, duration, price) =>
      p.id != id && p.availability && duration - 3 <= p.duration <= duration + 3
      && price * 0.7 <= p.price <= price * 1.3
  }

  /** The packages a query returns: exactly those satisfying it, each as
      often as it occurs in `ps` (the queries have no `ORDER BY`, so no
      order is promised). */
  function Select(ps: seq<Package>, q: PackageQuery): (r: seq<Package>)
    reads ps
    ensures multiset(r) <= multiset(ps)
    ensures forall x {:trigger multiset(r)[x]} :: x in ps ==> multiset(r)[x] == if Satisfies(x, q) then multiset(ps)[x] else 0
    decreases |ps|
  {
    if ps == [] then []
    else
      var rest := Select(ps[1..], q);
      assert ps == [ps[0]] + ps[1..];
      if Satisfies(ps[0], q) then [ps[0]] + rest else rest
  }

  /** What a query returns comes from the table and satisfies it, every
      package satisfying it is returned, and nothing is returned twice
      unless it is stored twice. */
  lemma SelectMembers(ps: seq<Package>, q: PackageQuery)
    ensures |Select(ps, q)| <= |ps|
    ensures forall k :: 0 <= k < |Select(ps, q)| ==> Select(ps, q)[k] in ps && Satisfies(Select(ps, q)[k], q)
    ensures forall i :: 0 <= i < |ps| && Satisfies(ps[i], q) ==> ps[i] in Select(ps, q)
  {
    var r := Select(ps, q);
    forall k | 0 <= k < |r|
      ensures r[k] in ps && Satisfies(r[k], q)
    {
      assert r[k] in multiset(r);
    }
    forall i | 0 <= i < |ps| && Satisfies(ps[i], q)
      ensures ps[i] in r
    {
      assert ps[i] in multiset(ps);
    }
    SubMultisetNoLarger(multiset(r), multiset(ps));
  }

  /** `search_packages(query, filters)`. */
  function SearchPackages(db: Database, query: string, filters: SearchFilters := NO_FILTERS): (r: seq<Package>)
    reads db, db.packages
    ensures forall k :: 0 <= k < |r| ==> r[k] in db.packages && TextMatches(r[k], query) && FiltersHold(r[k], filters)
    ensures forall i :: 0 <= i < |db.packages| && TextMatches(db.packages[i], query)
                          && FiltersHold(db.packages[i], filters)
                        ==> db.packages[i] in r
    ensures multiset(r) <= multiset(db.packages)
    ensures forall x {:trigger multiset(r)[x]} :: x in db.packages ==>
              multiset(r)[x] == if TextMatches(x, query) && FiltersHold(x, filters) then multiset(db.packages)[x] else 0
  {
    SelectMembers(db.packages, Search(query, filters));
    Select(db.packages, Search(query, filters))
  }

  /** Each filter added narrows the search: what a more demanding search
      finds, the less demanding one finds too. */
  lemma SearchNarrows(db: Database, query: string, f: SearchFilters, g: SearchFilters)
    requires Extends(f, g)
    ensures forall p :: p in SearchPackages(db, query, f) ==> p in SearchPackages(db, query, g)
    ensures |SearchPackages(db, query, f)| <= |SearchPackages(db, query, g)|
  {
    SelectNarrows(db.packages, Search(query, f), Search(query, g));
  }

  /** A query implied by another selects a sub-sequence of what the other
      selects. */
  lemma SelectNarrows(ps: seq<Package>, q: PackageQuery, q': PackageQuery)
    requires forall i :: 0 <= i < |ps| && Satisfies(ps[i], q) ==> Satisfies(ps[i], q')
    ensures forall p :: p in Select(ps, q) ==> p in Select(ps, q')
    ensures |Select(ps, q)| <= |Select(ps, q')|
  {
    var r, r' := Select(ps, q), Select(ps, q');
    forall x | x in ps
      ensures multiset(r)[x] <= multiset(r')[x]
    {
      var i :| 0 <= i < |ps| && ps[i] == x;
    }
    assert multiset(r) <= multiset(r');
    SubMultisetNoLarger(multiset(r), multiset(r'));
    forall p | p in r
      ensures p in r'
    {
      assert p in multiset(r);
    }
  }

  /** `get_packages_by_price_range(min_price, max_price)`: the available
      packages priced within the bounds, both included. */
  function GetPackagesByPriceRange(db: Database, minPrice: real, maxPrice: real): (r: seq<Package>)
    reads db, db.packages
    ensures forall k :: 0 <= k < |r| ==> r[k] in db.packages && r[k].availability && minPrice <= r[k].price <= maxPrice
    ensures forall i :: 0 <= i < |db.packages| && db.packages[i].availability
                          && minPrice <= db.packages[i].price <= maxPrice
                        ==> db.packages[i] in r
    ensures minPrice > maxPrice ==> r == []
    ensures multiset(r) <= multiset(db.packages)
    ensures forall x {:trigger multiset(r)[x]} :: x in db.packages ==>
              multiset(r)[x] == if x.availability && minPrice <= x.price <= maxPrice then multiset(db.packages)[x] else 0
  {
    SelectMembers(db.packages, PriceRange(minPrice, maxPrice));
    var r := Select(db.packages, PriceRange(minPrice, maxPrice));
    assert r != [] ==> Satisfies(r[0], PriceRange(minPrice, maxPrice));
    r
  }

  /** `get_packages_by_duration(min_days, max_days)`: the available packages
      lasting within the bounds, both included. */
  function GetPackagesByDuration(db: Database, minDays: int, maxDays: int): (r: seq<Package>)
    reads db, db.packages
    ensures forall k :: 0 <= k < |r| ==> r[k] in db.packages && r[k].availability && minDays <= r[k].duration <= maxDays
    ensures forall i :: 0 <= i < |db.packages| && db.packages[i].availability
                          && minDays <= db.packages[i].duration <= maxDays
                        ==> db.packages[i] in r
    ensures multiset(r) <= multiset(db.packages)
    ensures forall x {:trigger multiset(r)[x]} :: x in db.packages ==>
              multiset(r)[x] == if x.availability && minDays <= x.duration <= maxDays then multiset(db.packages)[x] else 0
  {
    SelectMembers(db.packages, DurationRange(minDays, maxDays));
    Select(db.packages, DurationRange(minDays, maxDays))
  }

  /** `get_similar_packages(package_id, limit)`: up to `limit` other
      available packages whose duration is within three days and whose price
      is within 30% of the package's; none for an unknown package. */
  function GetSimilarPackages(db: Database, packageId: int, limit: nat := 3): (r: seq<Package>)
    reads db, db.packages
    ensures db.FindPackage(packageId).None? ==> r == []
    ensures |r| <= limit
    ensures forall k :: 0 <= k < |r| ==>
              var p := db.FindPackage(packageId).value;
              r[k] in db.packages && r[k].id != packageId && r[k].availability
              && p.duration - 3 <= r[k].duration <= p.duration + 3
              && p.price * 0.7 <= r[k].price <= p.price * 1.3
    ensures db.FindPackage(packageId).Some? ==>
              var p := db.FindPackage(packageId).value;
              forall i :: 0 <= i < |db.packages| && Satisfies(db.packages[i], SimilarTo(packageId, p.duration, p.price))
                          && db.packages[i] !in r
                        ==> |r| == limit
  {
    var package := db.FindPackage(packageId);
    if package.None? then []
    else
      SimilarTake(db, packageId, limit);
      Take(Select(db.packages, SimilarTo(packageId, package.value.duration, package.value.price)), limit)
  }

  /** The first `limit` similar packages are similar, and leave out a
      similar package only when `limit` of them were kept. */
  lemma SimilarTake(db: Database, packageId: int, limit: nat)
    requires db.FindPackage(packageId).Some?
    ensures var p := db.FindPackage(packageId).value;
            var r := Take(Select(db.packages, SimilarTo(packageId, p.duration, p.price)), limit);
            (forall k :: 0 <= k < |r| ==>
               r[k] in db.packages && r[k].id != packageId && r[k].availability
               && p.duration - 3 <= r[k].duration <= p.duration + 3
               && p.price * 0.7 <= r[k].price <= p.price * 1.3)
            && forall i :: 0 <= i < |db.packages| && Satisfies(db.packages[i], SimilarTo(packageId, p.duration, p.price))
                           && db.packages[i] !in r
                         ==> |r| == limit
  {
    var p := db.FindPackage(packageId).value;
    var q := SimilarTo(packageId, p.duration, p.price);
    var all := Select(db.packages, q);
    SelectMembers(db.packages, q);
    var r := Take(all, limit);
    forall k | 0 <= k < |r|
      ensures r[k] in db.packages && Satisfies(r[k], q)
    {
      assert r[k] == all[k];
    }
    forall i | 0 <= i < |db.packages| && Satisfies(db.packages[i], q) && db.packages[i] !in r
      ensures |r| == limit
    {
      assert db.packages[i] in all;
    }
  }

  /** For a known package, the similar packages are the first `limit` of
      all similar ones, or all of them when there are fewer. */
  lemma SimilarIsSelectPrefix(db: Database, packageId: int, limit: nat)
    requires db.FindPackage(packageId).Some?
    ensures var p := db.FindPackage(packageId).value;
            var all := Select(db.packages, SimilarTo(packageId, p.duration, p.price));
            GetSimilarPackages(db, packageId, limit) == all[..|GetSimilarPackages(db, packageId, limit)|]
            && |GetSimilarPackages(db, packageId, limit)| == if |all| <= limit then |all| else limit
  {
  }

  /** A package is never similar to itself. */
  lemma NotSimilarToItself(db: Database, packageId: int, limit: nat)
    ensures forall p :: p in GetSimilarPackages(db, packageId, limit) ==> p.id != packageId
  {
    var r := GetSimilarPackages(db, packageId, limit);
    forall p | p in r
      ensures p.id != packageId
    {
      var k :| 0 <= k < |r| && r[k] == p;
    }
  }

  /** `COUNT(Booking.id) ... WHERE status != 'cancelled' GROUP BY
      package_id`: the bookings of a package that are not cancelled. */
  function BookingCount(bs: seq<Booking>, packageId: int): (n: nat)
    reads bs
    ensures n <= |bs|
    decreases |bs|
  {
    if bs == [] then 0
    else BookingCount(bs[..|bs| - 1], packageId)
         + (if bs[|bs| - 1].packageId == packageId && bs[|bs| - 1].status != CANCELLED then 1 else 0)
  }

  /** A cancelled booking does not count; any other booking counts once,
      for its own package only. */
  lemma BookingCountAppend(bs: seq<Booking>, b: Booking, packageId: int)
    ensures BookingCount(bs + [b], packageId)
            == BookingCount(bs, packageId) + (if b.packageId == packageId && b.status != CANCELLED then 1 else 0)
  {
    assert (bs + [b])[..|bs|] == bs;
  }

  /** Cancelling bookings never raises a package's count. */
  lemma {:induction false} CancellingLowersCount(bs: seq<Booking>, cs: seq<Booking>, packageId: int)
    requires |bs| == |cs|
    requires forall i :: 0 <= i < |bs| ==> cs[i].packageId == bs[i].packageId
    requires forall i :: 0 <= i < |bs| ==> cs[i].status == bs[i].status || cs[i].status == CANCELLED
    ensures BookingCount(cs, packageId) <= BookingCount(bs, packageId)
    decreases |bs|
  {
    if bs != [] {
      CancellingLowersCount(bs[..|bs| - 1], cs[..|cs| - 1], packageId);
    }
  }

  /** The packages with at least one booking that is not cancelled, keyed
      by that count (the inner join), in table order. */
  function CountedRows(ps: seq<Package>, bs: seq<Booking>): (r: seq<(int, Package)>)
    reads ps, bs
    ensures forall k :: 0 <= k < |r| ==> r[k].1 in ps && r[k].0 == BookingCount(bs, r[k].1.id) > 0
    decreases |ps|
  {
    if ps == [] then []
    else
      var rest := CountedRows(ps[1..], bs);
      assert forall i :: 1 <= i < |ps| ==> ps[i] == ps[1..][i - 1];
      var n := BookingCount(bs, ps[0].id);
      if n > 0 then [(n as int, ps[0])] + rest else rest
  }

  /** The join keeps each package with bookings that are not cancelled as
      often as it occurs in `ps`, and nothing else. */
  lemma {:induction false} CountedRowsKeepBooked(ps: seq<Package>, bs: seq<Booking>)
    ensures multiset(Rows(CountedRows(ps, bs))) <= multiset(ps)
    ensures forall x :: x in ps ==>
              multiset(Rows(CountedRows(ps, bs)))[x] == if BookingCount(bs, x.id) > 0 then multiset(ps)[x] else 0
    decreases |ps|
  {
    if ps != [] {
      var rest := CountedRows(ps[1..], bs);
      CountedRowsKeepBooked(ps[1..], bs);
      var row := (BookingCount(bs, ps[0].id) as int, ps[0]);
      assert ps == [ps[0]] + ps[1..];
      RowsAppend([row], rest);
      assert Rows([row]) == [ps[0]];
    }
  }

  /** Every package with bookings, the most booked first (the `ORDER BY`
      before the limit). */
  function RankedByCount(db: Database): (r: seq<Package>)
    reads db, db.packages, db.bookings
    ensures forall k :: 0 <= k < |r| ==> r[k] in db.packages && BookingCount(db.bookings, r[k].id) > 0
    ensures forall i, j :: 0 <= i < j < |r| ==> BookingCount(db.bookings, r[i].id) >= BookingCount(db.bookings, r[j].id)
  {
    var rows := CountedRows(db.packages, db.bookings);
    SortedRowsSameMembers(rows, true);
    var sorted := SortByKey(rows, true);
    assert forall k :: 0 <= k < |sorted| ==> sorted[k].0 == BookingCount(db.bookings, sorted[k].1.id);
    Rows(sorted)
  }

  /** The ranking holds every package with bookings that are not
      cancelled, each as often as it occurs in the table, and nothing else. */
  lemma RankedKeepsBooked(db: Database)
    ensures multiset(RankedByCount(db)) <= multiset(db.packages)
    ensures forall x :: x in db.packages ==>
              multiset(RankedByCount(db))[x] == if BookingCount(db.bookings, x.id) > 0 then multiset(db.packages)[x] else 0
    ensures forall i :: 0 <= i < |db.packages| && BookingCount(db.bookings, db.packages[i].id) > 0
                        ==> db.packages[i] in RankedByCount(db)
  {
    var rows := CountedRows(db.packages, db.bookings);
    CountedRowsKeepBooked(db.packages, db.bookings);
    SortKeepsRows(rows, true);
    forall i | 0 <= i < |db.packages| && BookingCount(db.bookings, db.packages[i].id) > 0
      ensures db.packages[i] in RankedByCount(db)
    {
      assert db.packages[i] in multiset(db.packages);
    }
  }

  /** `get_most_booked_packages(limit)`: up to `limit` packages with
      bookings that are not cancelled, the most booked first. */
  function GetMostBookedPackages(db: Database, limit: nat := 5): (r: seq<Package>)
    reads db, db.packages, db.bookings
    ensures |r| <= limit
    ensures forall k :: 0 <= k < |r| ==> r[k] in db.packages && BookingCount(db.bookings, r[k].id) > 0
    ensures forall i, j :: 0 <= i < j < |r| ==> BookingCount(db.bookings, r[i].id) >= BookingCount(db.bookings, r[j].id)
  {
    var all := RankedByCount(db);
    assert forall k :: 0 <= k < |Take(all, limit)| ==> Take(all, limit)[k] == all[k];
    Take(all, limit)
  }

  /** A package with bookings that are not cancelled is left out of the
      most booked only when `limit` packages were kept, each booked at least
      as often as it. */
  lemma MostBookedCutsOnlyLess(db: Database, limit: nat)
    ensures forall i :: 0 <= i < |db.packages| && BookingCount(db.bookings, db.packages[i].id) > 0
                        && db.packages[i] !in GetMostBookedPackages(db, limit) ==>
              |GetMostBookedPackages(db, limit)| == limit
              && forall k :: 0 <= k < |GetMostBookedPackages(db, limit)| ==>
                   BookingCount(db.bookings, GetMostBookedPackages(db, limit)[k].id)
                   >= BookingCount(db.bookings, db.packages[i].id)
  {
    var all := RankedByCount(db);
    var r := GetMostBookedPackages(db, limit);
    RankedKeepsBooked(db);
    forall i | 0 <= i < |db.packages| && BookingCount(db.bookings, db.packages[i].id) > 0 && db.packages[i] !in r
      ensures |r| == limit
      ensures forall k :: 0 <= k < |r| ==> BookingCount(db.bookings, r[k].id) >= BookingCount(db.bookings, db.packages[i].id)
    {
      var j :| 0 <= j < |all| && all[j] == db.packages[i];
      TakeCutsOnlyTail(all, limit, j);
    }
  }

  /** The most booked packages are the first `limit` of the ranking, or all
      of it when it is shorter. */
  lemma MostBookedIsRankedPrefix(db: Database, limit: nat)
    ensures GetMostBookedPackages(db, limit) == RankedByCount(db)[..|GetMostBookedPackages(db, limit)|]
    ensures |GetMostBookedPackages(db, limit)| == if |RankedByCount(db)| <= limit then |RankedByCount(db)| else limit
  {
  }
}
