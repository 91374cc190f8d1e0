/** A booking row (`bookings` table): its constructor defaults, the
    booking-number generator, the price computation and the paid-in-full
    test over the booking's payments. Travel dates are day numbers and
    timestamps are whole seconds since the epoch. */
module BookingModel {
  import opened Common
  import opened Text
  import opened PaymentModel

  const PENDING: string := "pending"
  const CONFIRMED: string := "confirmed"
  const CANCELLED: string := "cancelled"

  /** The statuses `update_booking_status` accepts. */
  const STATUSES: seq<string> := [PENDING, CONFIRMED, CANCELLED]

  /** `_generate_booking_number`: "BK" followed by the creation time in whole
      seconds. It is determined by the timestamp alone. */
  function BookingNumber(timestamp: nat): (r: string)
    ensures |r| > 2 && r[..2] == "BK"
    ensures IsDigits(r[2..])
    ensures ParseDigits(r[2..]) == timestamp
  {
    ParseNatToString(timestamp);
    var r := "BK" + NatToString(timestamp);
    assert r[2..] == NatToString(timestamp);
    r
  }

  /** Two bookings get the same number exactly when they are created in the
      same second: the numbers tell seconds apart and nothing else. */
  lemma BookingNumberSameSecond(a: nat, b: nat)
    ensures BookingNumber(a) == BookingNumber(b) <==> a == b
  {
    if BookingNumber(a) == BookingNumber(b) {
      assert BookingNumber(a)[2..] == BookingNumber(b)[2..];
    }
  }

  /** The price of `travelers` places at `unit` each: one place costs the
      unit price, and no price is negative when neither factor is. */
  function LinePrice(unit: real, travelers: int): (r: real)
    ensures travelers == 1 ==> r == unit
    ensures travelers == 0 ==> r == 0.0
    ensures unit >= 0.0 && travelers >= 0 ==> r >= 0.0
  {
    unit * travelers as real
  }

  class Booking {
    /** Primary key, fixed once the row exists. */
    const id: nat
    /** Foreign keys, fixed once the row exists. */
    const userId: int
    const packageId: int
    var travelDate: int
    var status: string
    var bookingNumber: string
    var numberOfTravelers: int
    var specialRequests: Option<string>
    /** Nullable: unset until `calculate_total_price` or a caller fills it. */
    var totalPrice: Option<real>
    var createdAt: nat
    var priority: bool

    /** `Booking(...)`: pending, one traveller, no requests, no priority,
        no price yet, and a booking number taken from the clock `now`. */
    constructor (id: nat, userId: int, packageId: int, travelDate: int, now: nat,
                 status: string := PENDING, numberOfTravelers: int := 1,
                 specialRequests: Option<string> := None, priority: bool := false)
      ensures this.id == id && this.userId == userId && this.packageId == packageId
      ensures this.travelDate == travelDate && this.status == status
      ensures this.numberOfTravelers == numberOfTravelers
      ensures this.specialRequests == specialRequests && this.priority == priority
      ensures this.createdAt == now && this.bookingNumber == BookingNumber(now)
      ensures this.totalPrice == None
    {
      this.id := id;
      this.userId := userId;
      this.packageId := packageId;
      this.travelDate := travelDate;
      this.status := status;
      this.numberOfTravelers := numberOfTravelers;
      this.specialRequests := specialRequests;
      this.priority := priority;
      this.createdAt := now;
      this.bookingNumber := BookingNumber(now);
      this.totalPrice := None;
    }

    /** `calculate_total_price`: the unit price times the party size, stored
        and returned. */
    method CalculateTotalPrice(packagePrice: real) returns (total: real)
      modifies this`totalPrice
      ensures total == LinePrice(packagePrice, numberOfTravelers)
      ensures totalPrice == Some(total)
    {
      total := LinePrice(packagePrice, numberOfTravelers);
      totalPrice := Some(total);
    }

    /** `is_fully_paid` over the payments table (the `payments`
        relationship is the rows whose `booking_id` is this booking's id).
        With no payment at all the booking is not paid; otherwise it is paid
        when the completed amounts reach the price, and an unset price makes
        the comparison raise. */
    function IsFullyPaid(payments: seq<Payment>): (r: Result<bool>)
      reads this, payments
      ensures !HasPaymentFor(payments, id) ==> r == Ok(false)
      ensures r == Ok(true) <==>
                HasPaymentFor(payments, id) && totalPrice.Some?
                && PaidTotal(payments, id) >= totalPrice.value
      ensures r.Raise? <==> HasPaymentFor(payments, id) && totalPrice.None?
    {
      if !HasPaymentFor(payments, id) then Ok(false)
      else if totalPrice.None? then Raise(TypeError)
      else Ok(PaidTotal(payments, id) >= totalPrice.value)
    }
  }

  /** Refunded, pending and failed payments never make a booking paid. */
  lemma OnlyCompletedPay(b: Booking, payments: seq<Payment>)
    requires b.totalPrice.Some? && b.totalPrice.value > 0.0
    requires forall i :: 0 <= i < |payments| ==>
               payments[i].bookingId != b.id || payments[i].status != COMPLETED
    ensures b.IsFullyPaid(payments) == Ok(false)
  {
    PaidTotalOnlyCompleted(payments, b.id);
  }
}
