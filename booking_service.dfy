/** `BookingService`: capacity per package and date, the available-dates
    scan, status changes, booking creation with the price fill-in, the
    "has travelled" test that gates reviews, upcoming bookings and the
    booking statistics. "Today" is a parameter (a day number). */
module BookingService {
  import opened Common
  import opened Queries
  import opened BookingModel
  import opened PackageModel
  import opened Store

  /** A booking that holds places: confirmed or pending. */
  predicate HoldsPlaces(b: Booking)
    reads b
  {
    b.status == CONFIRMED || b.status == PENDING
  }

  /** The places booking `b` takes on package `packageId` at `date`. */
  function PlacesTaken(b: Booking, packageId: int, date: int): int
    reads b
  {
    if b.packageId == packageId && b.travelDate == date && HoldsPlaces(b) then b.numberOfTravelers else 0
  }

  /** `SUM(number_of_travelers)` over the confirmed and pending bookings of
      the package at the date, `or 0` for none. */
  function Occupancy(bs: seq<Booking>, packageId: int, date: int): (n: int)
    reads bs
    ensures (forall i :: 0 <= i < |bs| ==> bs[i].numberOfTravelers >= 0) ==> n >= 0
    decreases |bs|
  {
    if bs == [] then 0
    else Occupancy(bs[..|bs| - 1], packageId, date) + PlacesTaken(bs[|bs| - 1], packageId, date)
  }

  /** A new booking adds exactly the places it takes. */
  lemma OccupancyAppend(bs: seq<Booking>, b: Booking, packageId: int, date: int)
    ensures Occupancy(bs + [b], packageId, date) == Occupancy(bs, packageId, date) + PlacesTaken(b, packageId, date)
  {
    assert (bs + [b])[..|bs|] == bs;
  }

  /** Cancelled bookings, and bookings of other packages or dates, hold no
      place: with only those the occupancy is 0. */
  lemma {:induction false} OccupancyIgnoresCancelled(bs: seq<Booking>, packageId: int, date: int)
    requires forall i :: 0 <= i < |bs| ==>
               bs[i].packageId != packageId || bs[i].travelDate != date || bs[i].status == CANCELLED
    ensures Occupancy(bs, packageId, date) == 0
    decreases |bs|
  {
    if bs != [] {
      OccupancyIgnoresCancelled(bs[..|bs| - 1], packageId, date);
    }
  }

  /** `check_availability`: false for a missing or withdrawn package;
      otherwise the date is open while the occupied places are strictly
      fewer than `max_travelers`. */
  predicate CheckAvailability(db: Database, packageId: int, travelDate: int)
    reads db, db.packages, db.bookings
    ensures db.FindPackage(packageId).None? ==> !CheckAvailability(db, packageId, travelDate)
    ensures db.FindPackage(packageId).Some? && !db.FindPackage(packageId).value.availability
            ==> !CheckAvailability(db, packageId, travelDate)
    ensures db.FindPackage(packageId).Some?
            && Occupancy(db.bookings, packageId, travelDate) >= db.FindPackage(packageId).value.maxTravelers
            ==> !CheckAvailability(db, packageId, travelDate)
  {
    var p := db.FindPackage(packageId);
    p.Some? && p.value.availability && Occupancy(db.bookings, packageId, travelDate) < p.value.maxTravelers
  }

  /** The test ignores the size of the party asking: a date with one place
      left is open, and a party of `n` travellers booked on it brings the
      occupancy to `n - 1` over the maximum. */
  lemma OneFreePlaceAdmitsAnyParty(db: Database, b: Booking, packageId: int, date: int)
    requires db.FindPackage(packageId).Some?
    requires db.FindPackage(packageId).value.availability
    requires Occupancy(db.bookings, packageId, date) == db.FindPackage(packageId).value.maxTravelers - 1
    requires b.packageId == packageId && b.travelDate == date && b.status == PENDING
    ensures CheckAvailability(db, packageId, date)
    ensures Occupancy(db.bookings + [b], packageId, date)
            == db.FindPackage(packageId).value.maxTravelers + b.numberOfTravelers - 1
  {
    OccupancyAppend(db.bookings, b, packageId, date);
  }

  /** `get_available_dates`: walks the days from `startDate` to `endDate`
      inclusive and keeps, in increasing order, exactly those on which
      `check_availability` holds; nothing for a missing or withdrawn
      package. */
  method GetAvailableDates(db: Database, packageId: int, startDate: int, endDate: int)
    returns (dates: seq<int>)
    ensures forall d :: d in dates <==> startDate <= d <= endDate && CheckAvailability(db, packageId, d)
    ensures forall i, j :: 0 <= i < j < |dates| ==> dates[i] < dates[j]
    ensures db.FindPackage(packageId).None? || !db.FindPackage(packageId).value.availability ==> dates == []
  {
    var package := db.FindPackage(packageId);
    if package.None? || !package.value.availability {
      return [];
    }
    dates := [];
    var current := startDate;
    while current <= endDate
      invariant startDate <= current <= (if startDate <= endDate then endDate + 1 else startDate)
      invariant forall d :: d in dates <==> startDate <= d < current && CheckAvailability(db, packageId, d)
      invariant forall i, j :: 0 <= i < j < |dates| ==> dates[i] < dates[j]
      invariant forall i :: 0 <= i < |dates| ==> dates[i] < current
      decreases endDate - current
    {
      if CheckAvailability(db, packageId, current) {
        dates := dates + [current];
      }
      current := current + 1;
    }
  }

  /** `update_booking_status`: only pending, confirmed or cancelled can be
      written, and only to an existing booking; otherwise nothing changes. */
  method UpdateBookingStatus(db: Database, bookingId: int, newStatus: string) returns (ok: bool)
    modifies AsSet(db.FindBooking(bookingId))`status
    ensures ok <==> db.FindBooking(bookingId).Some? && newStatus in STATUSES
    ensures ok ==> db.FindBooking(bookingId).value.status == newStatus
    ensures !ok && db.FindBooking(bookingId).Some? ==>
              db.FindBooking(bookingId).value.status == old(db.FindBooking(bookingId).value.status)
  {
    var booking := db.FindBooking(bookingId);
    if booking.Some? && newStatus in STATUSES {
      booking.value.status := newStatus;
      return true;
    }
    return false;
  }

  /** Whether some stored booking already carries booking number `number`. */
  predicate NumberTaken(bs: seq<Booking>, number: string)
    reads bs
  {
    exists i :: 0 <= i < |bs| && bs[i].bookingNumber == number
  }

  /** The `unique=True` constraint on `booking_number`. */
  predicate UniqueNumbers(bs: seq<Booking>)
    reads bs
  {
    forall i, j :: 0 <= i < j < |bs| ==> bs[i].bookingNumber != bs[j].bookingNumber
  }

  /** `create_booking` for a new booking object `b`: an unset or zero price
      is filled in from the package, when it exists, as unit price times
      travellers; a given price is kept. The row is then inserted; a
      booking whose package or user does not exist fails its foreign key at
      the commit, one whose booking number is already stored fails the
      unique constraint, and then nothing is stored (the fill-in stays on
      the object). */
  method CreateBooking(db: Database, b: Booking) returns (r: Result<nat>)
    requires db.Valid() && b.id == db.nextId
    modifies db`bookings, db`nextId, b`totalPrice
    ensures db.Valid()
    ensures r.Raise? <==> db.FindPackage(b.packageId).None? || db.FindUser(b.userId).None?
                          || NumberTaken(old(db.bookings), b.bookingNumber)
    ensures r.Raise? ==> r.exc == DatabaseError && db.bookings == old(db.bookings) && db.nextId == old(db.nextId)
    ensures r.Ok? ==> r.value == b.id && db.bookings == old(db.bookings) + [b]
    ensures UniqueNumbers(old(db.bookings)) ==> UniqueNumbers(db.bookings)
    ensures db.FindPackage(b.packageId).Some? && !GivenReal(old(b.totalPrice)) ==>
              b.totalPrice == Some(LinePrice(db.FindPackage(b.packageId).value.price, b.numberOfTravelers))
    ensures db.FindPackage(b.packageId).None? || GivenReal(old(b.totalPrice)) ==> b.totalPrice == old(b.totalPrice)
  {
    if !GivenReal(b.totalPrice) {
      var package := db.FindPackage(b.packageId);
      if package.Some? {
        var _ := b.CalculateTotalPrice(package.value.price);
      }
    }
    if db.FindPackage(b.packageId).None? || db.FindUser(b.userId).None? || NumberTaken(db.bookings, b.bookingNumber) {
      return Raise(DatabaseError);
    }
    db.AddBooking(b);
    r := Ok(b.id);
  }

  /** `has_user_traveled`, scanning the table row by row. */
  predicate Traveled(bs: seq<Booking>, userId: int, packageId: int, today: int)
    reads bs
    decreases |bs|
  {
    bs != [] &&
      ((bs[0].userId == userId && bs[0].packageId == packageId
        && bs[0].status == CONFIRMED && bs[0].travelDate < today)
       || Traveled(bs[1..], userId, packageId, today))
  }

  /** `has_user_traveled` holds exactly when some confirmed booking of that
      user for that package has a travel date before today. */
  lemma {:induction false} TraveledIff(bs: seq<Booking>, userId: int, packageId: int, today: int)
    ensures Traveled(bs, userId, packageId, today) <==>
              exists i :: 0 <= i < |bs| && bs[i].userId == userId && bs[i].packageId == packageId
                          && bs[i].status == CONFIRMED && bs[i].travelDate < today
    decreases |bs|
  {
    if bs != [] {
      TraveledIff(bs[1..], userId, packageId, today);
      assert forall i :: 1 <= i < |bs| ==> bs[i] == bs[1..][i - 1];
      if exists i :: 0 <= i < |bs| && bs[i].userId == userId && bs[i].packageId == packageId
                     && bs[i].status == CONFIRMED && bs[i].travelDate < today {
        var i :| 0 <= i < |bs| && bs[i].userId == userId && bs[i].packageId == packageId
                 && bs[i].status == CONFIRMED && bs[i].travelDate < today;
        if i > 0 {
          assert bs[1..][i - 1] == bs[i];
        }
      }
    }
  }

  /** `has_user_traveled`: some confirmed booking of the user for the
      package has a travel date before today. */
  predicate HasUserTraveled(db: Database, userId: int, packageId: int, today: int)
    reads db, db.bookings
    ensures HasUserTraveled(db, userId, packageId, today) <==>
              exists i :: 0 <= i < |db.bookings| && db.bookings[i].userId == userId
                          && db.bookings[i].packageId == packageId
                          && db.bookings[i].status == CONFIRMED && db.bookings[i].travelDate < today
  {
    TraveledIff(db.bookings, userId, packageId, today);
    Traveled(db.bookings, userId, packageId, today)
  }

  /** The rows `get_upcoming_bookings` keeps, keyed by travel date: not
      cancelled, travelling today or later, and of the given user when a
      (truthy) user id is passed. */
  predicate IsUpcoming(b: Booking, today: int, userId: Option<int>)
    reads b
  {
    b.travelDate >= today && b.status != CANCELLED && (GivenInt(userId) ==> b.userId == userId.value)
  }

  /** The upcoming bookings keyed by travel date, in table order. */
  function UpcomingRows(bs: seq<Booking>, today: int, userId: Option<int>): (r: seq<(int, Booking)>)
    reads bs
    ensures forall x :: x in r ==> x.0 == x.1.travelDate
    decreases |bs|
  {
    if bs == [] then []
    else
      var rest := UpcomingRows(bs[1..], today, userId);
      if IsUpcoming(bs[0], today, userId) then [(bs[0].travelDate, bs[0])] + rest else rest
  }

  /** The keyed rows hold each upcoming booking as often as it occurs in
      `bs`, and nothing else. */
  lemma {:induction false} UpcomingRowsKeep(bs: seq<Booking>, today: int, userId: Option<int>)
    ensures multiset(Rows(UpcomingRows(bs, today, userId))) <= multiset(bs)
    ensures forall x :: x in bs ==>
              multiset(Rows(UpcomingRows(bs, today, userId)))[x]
              == if IsUpcoming(x, today, userId) then multiset(bs)[x] else 0
    decreases |bs|
  {
    if bs != [] {
      var rest := UpcomingRows(bs[1..], today, userId);
      UpcomingRowsKeep(bs[1..], today, userId);
      assert bs == [bs[0]] + bs[1..];
      RowsAppend([(bs[0].travelDate, bs[0])], rest);
      assert Rows([(bs[0].travelDate, bs[0])]) == [bs[0]];
      var m := multiset(Rows(UpcomingRows(bs, today, userId)));
      assert m == (if IsUpcoming(bs[0], today, userId) then multiset{bs[0]} else multiset{}) + multiset(Rows(rest));
      forall x | x in bs
        ensures m[x] == if IsUpcoming(x, today, userId) then multiset(bs)[x] else 0
      {
        if x !in bs[1..] {
          assert x == bs[0];
        }
      }
    }
  }

  /** `get_upcoming_bookings`: every non-cancelled booking from today on
      (of the user, when one is named), each as often as it occurs in the
      table, in travel-date order. */
  function GetUpcomingBookings(db: Database, today: int, userId: Option<int>): (r: seq<Booking>)
    reads db, db.bookings
    ensures forall i, j :: 0 <= i < j < |r| ==> r[i].travelDate <= r[j].travelDate
    ensures multiset(r) <= multiset(db.bookings)
    ensures forall x {:trigger multiset(r)[x]} :: x in db.bookings ==>
              multiset(r)[x] == if IsUpcoming(x, today, userId) then multiset(db.bookings)[x] else 0
  {
    var rows := UpcomingRows(db.bookings, today, userId);
    UpcomingRowsKeep(db.bookings, today, userId);
    SortedRowsSameMembers(rows, false);
    SortKeepsRows(rows, false);
    Rows(SortByKey(rows, false))
  }

  /** Every upcoming booking is listed, and only upcoming bookings are. */
  lemma UpcomingMembers(db: Database, today: int, userId: Option<int>)
    ensures forall k :: 0 <= k < |GetUpcomingBookings(db, today, userId)| ==>
              GetUpcomingBookings(db, today, userId)[k] in db.bookings
              && IsUpcoming(GetUpcomingBookings(db, today, userId)[k], today, userId)
    ensures forall i :: 0 <= i < |db.bookings| && IsUpcoming(db.bookings[i], today, userId) ==>
              db.bookings[i] in GetUpcomingBookings(db, today, userId)
  {
    var r := GetUpcomingBookings(db, today, userId);
    forall k | 0 <= k < |r|
      ensures r[k] in db.bookings && IsUpcoming(r[k], today, userId)
    {
      assert r[k] in multiset(r);
    }
    forall i | 0 <= i < |db.bookings| && IsUpcoming(db.bookings[i], today, userId)
      ensures db.bookings[i] in r
    {
      assert db.bookings[i] in multiset(db.bookings);
    }
  }

  /** The figures `get_booking_stats` returns. */
  datatype BookingStats = BookingStats(
    totalBookings: nat, totalRevenue: real, pending: nat, confirmed: nat, cancelled: nat)

  /** How many bookings were created in the window. */
  function CountCreated(bs: seq<Booking>, start: Option<nat>, end: Option<nat>): (n: nat)
    reads bs
    ensures n <= |bs|
    ensures start.None? && end.None? ==> n == |bs|
    decreases |bs|
  {
    if bs == [] then 0
    else (if InWindow(bs[0].createdAt, start, end) then 1 else 0) + CountCreated(bs[1..], start, end)
  }

  /** `SUM(total_price)` in the window; SQL skips null prices. Nothing when
      no booking was created in the window. */
  function RevenueCreated(bs: seq<Booking>, start: Option<nat>, end: Option<nat>): (r: real)
    reads bs
    ensures CountCreated(bs, start, end) == 0 ==> r == 0.0
    ensures (forall i :: 0 <= i < |bs| && bs[i].totalPrice.Some? ==> bs[i].totalPrice.value >= 0.0) ==> r >= 0.0
    decreases |bs|
  {
    if bs == [] then 0.0
    else (if InWindow(bs[0].createdAt, start, end) && bs[0].totalPrice.Some? then bs[0].totalPrice.value else 0.0)
         + RevenueCreated(bs[1..], start, end)
  }

  /** How many bookings have status `status`: none exactly when no booking
      has it. */
  function CountStatus(bs: seq<Booking>, status: string): (n: nat)
    reads bs
    ensures n <= |bs|
    ensures n == 0 <==> forall i :: 0 <= i < |bs| ==> bs[i].status != status
    decreases |bs|
  {
    if bs == [] then 0
    else (if bs[0].status == status then 1 else 0) + CountStatus(bs[1..], status)
  }

  /** `get_booking_stats`: the count and revenue of the bookings created in
      the window, and the status counts over every booking, whatever the
      window. */
  function GetBookingStats(db: Database, start: Option<nat>, end: Option<nat>): (r: BookingStats)
    reads db, db.bookings
    ensures r.totalBookings == CountCreated(db.bookings, start, end)
    ensures r.totalRevenue == RevenueCreated(db.bookings, start, end)
    ensures r.pending == CountStatus(db.bookings, PENDING) && r.confirmed == CountStatus(db.bookings, CONFIRMED)
            && r.cancelled == CountStatus(db.bookings, CANCELLED)
    ensures r.totalBookings <= |db.bookings|
    ensures start.None? && end.None? ==> r.totalBookings == |db.bookings|
    ensures r.pending + r.confirmed + r.cancelled <= |db.bookings|
    ensures r.pending + r.confirmed + r.cancelled == |db.bookings| <==>
              forall i :: 0 <= i < |db.bookings| ==> db.bookings[i].status in STATUSES
  {
    StatusCountsCover(db.bookings);
    BookingStats(CountCreated(db.bookings, start, end), RevenueCreated(db.bookings, start, end),
                 CountStatus(db.bookings, PENDING), CountStatus(db.bookings, CONFIRMED),
                 CountStatus(db.bookings, CANCELLED))
  }

  /** The three status counts add up to at most the number of bookings, and
      to exactly that number when every status is one of the three. */
  lemma {:induction false} StatusCountsCover(bs: seq<Booking>)
    ensures CountStatus(bs, PENDING) + CountStatus(bs, CONFIRMED) + CountStatus(bs, CANCELLED) <= |bs|
    ensures CountStatus(bs, PENDING) + CountStatus(bs, CONFIRMED) + CountStatus(bs, CANCELLED) == |bs| <==>
              forall i :: 0 <= i < |bs| ==> bs[i].status in STATUSES
    decreases |bs|
  {
    if bs != [] {
      StatusCountsCover(bs[1..]);
      assert forall i :: 1 <= i < |bs| ==> bs[i] == bs[1..][i - 1];
      if bs[0].status !in STATUSES {
        assert !(forall i :: 0 <= i < |bs| ==> bs[i].status in STATUSES);
      }
    }
  }
}
