/** `PaymentService`: recording a payment and confirming the booking it
    completes, refunding a payment and reopening an under-paid booking, the
    read-only payment summary of a booking and the payment statistics.
    The gateway's transaction id (`uuid4`) and the clock are parameters.
    The session does not autoflush, so the `SUM` queries see the committed
    rows only: a payment added in the same request is not yet counted and a
    status written in the same request is not yet seen. */
module PaymentService {
  import opened Common
  import opened PaymentModel
  import opened BookingModel
  import opened Store

  /** The dictionary `process_payment` returns. */
  datatype PaymentOutcome = PaymentOutcome(
    paymentId: nat, transactionId: string, status: string, bookingStatus: Option<string>)

  /** The exception `process_payment` ends in, if any: an unset price
      fails the comparison with `TypeError` before the commit; a missing
      booking skips the comparison and, like a missing user, fails the
      payment's foreign key at the commit. */
  function PaymentError(db: Database, bookingId: int, userId: int): (e: Option<Exc>)
    reads db`bookings, db`users, db.bookings
    ensures e.Some? <==> db.FindBooking(bookingId).None? || db.FindBooking(bookingId).value.totalPrice.None?
                         || db.FindUser(userId).None?
    ensures e == Some(TypeError) <==>
              db.FindBooking(bookingId).Some? && db.FindBooking(bookingId).value.totalPrice.None?
  {
    var booking := db.FindBooking(bookingId);
    if booking.None? then Some(DatabaseError)
    else if booking.value.totalPrice.None? then Some(TypeError)
    else if db.FindUser(userId).None? then Some(DatabaseError)
    else None
  }

  /** The status a payment leaves its booking in, given the paid total
      with the payment counted. */
  function StatusAfterPayment(status: string, paid: real, price: real): (s: string)
    ensures s == CONFIRMED <==> status == CONFIRMED || (status == PENDING && paid >= price)
    ensures status != PENDING ==> s == status
    ensures s != status ==> status == PENDING && s == CONFIRMED
  {
    if paid >= price && status == PENDING then CONFIRMED else status
  }

  /** `process_payment`. A completed payment row is inserted with the given
      transaction id; the booking's committed paid total plus this amount is
      compared with its price, and a pending booking that this covers is
      confirmed (`StatusAfterPayment`). On an error nothing is stored. */
  method ProcessPayment(db: Database, bookingId: int, userId: int, amount: real,
                        paymentMethod: string, transactionId: string, now: nat,
                        cardLastDigits: Option<string> := None,
                        billingAddress: Option<string> := None)
    returns (r: Result<PaymentOutcome>)
    requires db.Valid()
    modifies db`payments, db`nextId, AsSet(db.FindBooking(bookingId))`status
    ensures db.Valid()
    ensures r.Raise? <==> PaymentError(db, bookingId, userId).Some?
    ensures r.Raise? ==> Some(r.exc) == PaymentError(db, bookingId, userId)
    ensures r.Raise? ==> db.payments == old(db.payments) && db.nextId == old(db.nextId)
                         && unchanged(AsSet(db.FindBooking(bookingId)))
    // the new row
    ensures r.Ok? ==>
              |db.payments| == |old(db.payments)| + 1 && db.payments[..|old(db.payments)|] == old(db.payments)
              && db.nextId == old(db.nextId) + 1
              && fresh(db.payments[|db.payments| - 1])
              && RecordedPayment(db.payments[|db.payments| - 1], old(db.nextId), bookingId, userId, amount,
                                 paymentMethod, transactionId, now, cardLastDigits, billingAddress)
    // the booking
    ensures r.Ok? ==> PaidTotal(db.payments, bookingId) == old(PaidTotal(db.payments, bookingId)) + amount
    ensures r.Ok? ==>
              var b := db.FindBooking(bookingId).value;
              b.status == StatusAfterPayment(old(b.status), PaidTotal(db.payments, bookingId), b.totalPrice.value)
              && r.value == PaymentOutcome(old(db.nextId), transactionId, COMPLETED, Some(b.status))
  {
    var booking := db.FindBooking(bookingId);
    if booking.None? {
      return Raise(DatabaseError);
    }
    var b := booking.value;
    if b.totalPrice.None? {
      return Raise(TypeError);
    }
    if db.FindUser(userId).None? {
      return Raise(DatabaseError);
    }
    var p := RecordPayment(db, b, userId, amount, paymentMethod, transactionId, now,
                           cardLastDigits, billingAddress);
    r := Ok(PaymentOutcome(p.id, transactionId, COMPLETED, Some(b.status)));
  }

  /** The part of `process_payment` past its checks: the completed row is
      inserted and the booking's status follows the paid total that
      includes it. */
  method RecordPayment(db: Database, b: Booking, userId: int, amount: real,
                       paymentMethod: string, transactionId: string, now: nat,
                       cardLastDigits: Option<string>, billingAddress: Option<string>)
    returns (p: Payment)
    requires db.Valid() && b.totalPrice.Some?
    modifies db`payments, db`nextId, b`status
    ensures db.Valid()
    ensures db.payments == old(db.payments) + [p] && db.nextId == old(db.nextId) + 1 && fresh(p)
    ensures RecordedPayment(p, old(db.nextId), b.id, userId, amount, paymentMethod, transactionId, now,
                            cardLastDigits, billingAddress)
    ensures PaidTotal(db.payments, b.id) == old(PaidTotal(db.payments, b.id)) + amount
    ensures b.status == StatusAfterPayment(old(b.status), PaidTotal(db.payments, b.id), b.totalPrice.value)
  {
    var totalPaid := PaidTotal(db.payments, b.id) + amount;
    var status := StatusAfterPayment(b.status, totalPaid, b.totalPrice.value);
    p := new Payment(db.nextId, b.id, userId, amount, paymentMethod, now,
                     Some(transactionId), COMPLETED, cardLastDigits, billingAddress);
    PaidTotalAppend(db.payments, p, b.id);
    db.AddPayment(p);
    b.status := status;
  }

  /** The row `process_payment` writes: completed, with the gateway's
      transaction id and the request's fields. */
  predicate RecordedPayment(p: Payment, id: nat, bookingId: int, userId: int, amount: real,
                            paymentMethod: string, transactionId: string, now: nat,
                            cardLastDigits: Option<string>, billingAddress: Option<string>)
    reads p
  {
    p.id == id && p.bookingId == bookingId && p.userId == userId
    && p.amount == amount && p.paymentMethod == paymentMethod
    && p.transactionId == Some(transactionId) && p.status == COMPLETED && p.paymentDate == now
    && p.cardLastDigits == cardLastDigits && p.billingAddress == billingAddress
  }

  /** The booking a payment row points at, as a frame. */
  function BookingOfPayment(db: Database, paymentId: int): (s: set<Booking>)
    reads db`payments, db.payments, db`bookings
    ensures |s| <= 1
    ensures db.FindPayment(paymentId).None? ==> s == {}
    ensures db.FindPayment(paymentId).Some? ==> s == AsSet(db.FindBooking(db.FindPayment(paymentId).value.bookingId))
  {
    var p := db.FindPayment(paymentId);
    if p.Some? then AsSet(db.FindBooking(p.value.bookingId)) else {}
  }

  /** `refund_payment` goes ahead: the payment exists and is completed. */
  predicate Refundable(db: Database, paymentId: int)
    reads db`payments, db.payments
  {
    db.FindPayment(paymentId).Some? && db.FindPayment(paymentId).value.status == COMPLETED
  }

  /** A refundable payment whose booking is confirmed but unpriced: the
      comparison with the price raises. */
  predicate RefundRaises(db: Database, paymentId: int)
    reads db`payments, db.payments, db`bookings, db.bookings
  {
    Refundable(db, paymentId)
    && db.FindBooking(db.FindPayment(paymentId).value.bookingId).Some?
    && db.FindBooking(db.FindPayment(paymentId).value.bookingId).value.status == CONFIRMED
    && db.FindBooking(db.FindPayment(paymentId).value.bookingId).value.totalPrice.None?
  }

  /** The status a refund leaves the booking in, given the paid total that
      remains: only a confirmed booking that is now short goes back to
      pending. */
  function StatusAfterRefund(status: string, paid: real, price: Option<real>): (s: string)
    ensures s == PENDING <==> status == PENDING || (status == CONFIRMED && price.Some? && paid < price.value)
    ensures status != CONFIRMED ==> s == status
    ensures s != status ==> status == CONFIRMED && s == PENDING
  {
    if status == CONFIRMED && price.Some? && paid < price.value then PENDING else status
  }

  /** `refund_payment`. A missing or not completed payment is refused and
      nothing changes, so a payment is refunded at most once. Otherwise the
      payment becomes refunded, its amount leaves the booking's paid total,
      and the booking's status follows `StatusAfterRefund`. The committed
      sum still counts the payment, so the code subtracts its amount once.
      An unset price on a confirmed booking makes the comparison raise
      before the commit, and nothing changes. */
  method RefundPayment(db: Database, paymentId: int) returns (r: Result<bool>)
    requires db.Valid()
    modifies AsSet(db.FindPayment(paymentId))`status, BookingOfPayment(db, paymentId)`status
    ensures r == Ok(false) <==> !old(Refundable(db, paymentId))
    ensures r.Raise? <==> old(RefundRaises(db, paymentId))
    ensures r.Raise? ==> r.exc == TypeError
    ensures r != Ok(true) ==>
              unchanged(AsSet(db.FindPayment(paymentId))) && unchanged(BookingOfPayment(db, paymentId))
    ensures r == Ok(true) ==>
              db.FindPayment(paymentId).value.status == REFUNDED
              && PaidTotal(db.payments, db.FindPayment(paymentId).value.bookingId)
                 == old(PaidTotal(db.payments, db.FindPayment(paymentId).value.bookingId))
                    - db.FindPayment(paymentId).value.amount
    ensures r == Ok(true) ==>
              forall b :: b in BookingOfPayment(db, paymentId) ==>
                b.status == StatusAfterRefund(old(b.status), PaidTotal(db.payments, b.id), b.totalPrice)
  {
    var payment := db.FindPayment(paymentId);
    if payment.None? || payment.value.status != COMPLETED {
      return Ok(false);
    }
    var p := payment.value;
    var booking := db.FindBooking(p.bookingId);
    if booking.Some? && booking.value.status == CONFIRMED && booking.value.totalPrice.None? {
      return Raise(TypeError);
    }
    RefundRow(db, p, booking);
    r := Ok(true);
  }

  /** The part of `refund_payment` past its checks: the payment becomes
      refunded and its booking, if any, follows the remaining paid total. */
  method RefundRow(db: Database, p: Payment, booking: Option<Booking>)
    requires db.Valid() && p in db.payments && p.status == COMPLETED
    requires booking.Some? ==> booking.value.id == p.bookingId
    requires booking.Some? && booking.value.status == CONFIRMED ==> booking.value.totalPrice.Some?
    modifies p`status, AsSet(booking)`status
    ensures p.status == REFUNDED
    ensures PaidTotal(db.payments, p.bookingId) == old(PaidTotal(db.payments, p.bookingId)) - p.amount
    ensures booking.Some? ==>
              booking.value.status
              == StatusAfterRefund(old(booking.value.status), PaidTotal(db.payments, p.bookingId),
                                   booking.value.totalPrice)
  {
    var remaining := PaidTotal(db.payments, p.bookingId) - p.amount;
    PaidTotalSplit(db.payments, p, p.bookingId);
    p.status := REFUNDED;
    PaidTotalSplit(db.payments, p, p.bookingId);
    if booking.Some? {
      booking.value.status := StatusAfterRefund(booking.value.status, remaining, booking.value.totalPrice);
    }
  }

  /** The dictionary `check_booking_payment_status` returns. */
  datatype PaymentSummary = PaymentSummary(
    bookingId: int, totalPrice: real, totalPaid: real, pendingAmount: real,
    isFullyPaid: bool, paymentPercentage: real)

  /** `check_booking_payment_status`: nothing for an unknown booking; for an
      unpriced one the subtraction raises; otherwise the paid total of the
      completed payments, what is still owed, whether it is covered and the
      percentage paid (0 for a price that is not positive). A read: it
      changes nothing, so asking twice gives the same answer. */
  function CheckBookingPaymentStatus(db: Database, bookingId: int): (r: Result<Option<PaymentSummary>>)
    reads db, db.bookings, db.payments
    ensures db.FindBooking(bookingId).None? ==> r == Ok(None)
    ensures r.Raise? <==> db.FindBooking(bookingId).Some? && db.FindBooking(bookingId).value.totalPrice.None?
    ensures r.Raise? ==> r.exc == TypeError
    ensures r.Ok? && r.value.Some? ==>
              var s := r.value.value;
              db.FindBooking(bookingId).Some?
              && Some(s.totalPrice) == db.FindBooking(bookingId).value.totalPrice
              && s.bookingId == bookingId && s.totalPaid == PaidTotal(db.payments, bookingId)
              && s.totalPaid + s.pendingAmount == s.totalPrice
              && (s.isFullyPaid <==> s.pendingAmount <= 0.0)
              && (s.totalPrice > 0.0 ==> s.paymentPercentage == s.totalPaid / s.totalPrice * 100.0)
              && (s.totalPrice > 0.0 ==> (s.isFullyPaid <==> s.paymentPercentage >= 100.0))
              && (s.totalPrice <= 0.0 ==> s.paymentPercentage == 0.0)
  {
    var booking := db.FindBooking(bookingId);
    if booking.None? then Ok(None)
    else if booking.value.totalPrice.None? then Raise(TypeError)
    else
      var price := booking.value.totalPrice.value;
      var paid := PaidTotal(db.payments, bookingId);
      var percentage := if price > 0.0 then (paid / price) * 100.0 else 0.0;
      PercentageReachesHundred(paid, price);
      Ok(Some(PaymentSummary(bookingId, price, paid, price - paid, paid >= price, percentage)))
  }

  /** For a positive price, the percentage paid reaches 100 exactly when the
      paid total reaches the price. */
  lemma PercentageReachesHundred(paid: real, price: real)
    ensures price > 0.0 ==> ((paid / price) * 100.0 >= 100.0 <==> paid >= price)
  {
    if price > 0.0 {
      var q := paid / price;
      assert q * price == paid;
      if q >= 1.0 {
        assert q * price >= 1.0 * price;
      } else {
        assert q * price < 1.0 * price;
      }
    }
  }

  /** With at least one payment row, the model's `is_fully_paid` and the
      summary agree. */
  lemma FullyPaidAgrees(db: Database, bookingId: int)
    requires db.FindBooking(bookingId).Some? && db.FindBooking(bookingId).value.totalPrice.Some?
    requires HasPaymentFor(db.payments, bookingId)
    ensures db.FindBooking(bookingId).value.IsFullyPaid(db.payments)
            == Ok(CheckBookingPaymentStatus(db, bookingId).value.value.isFullyPaid)
  {
  }

  /** Without any payment row the two disagree on a booking whose price is
      not positive: the summary calls it fully paid, `is_fully_paid` does
      not. */
  lemma FullyPaidDisagreesWithoutPayments(db: Database, bookingId: int)
    requires db.FindBooking(bookingId).Some? && db.FindBooking(bookingId).value.totalPrice.Some?
    requires db.FindBooking(bookingId).value.totalPrice.value <= 0.0
    requires !HasPaymentFor(db.payments, bookingId)
    ensures db.FindBooking(bookingId).value.IsFullyPaid(db.payments) == Ok(false)
    ensures CheckBookingPaymentStatus(db, bookingId).value.value.isFullyPaid
  {
    PaidTotalOnlyCompleted(db.payments, bookingId);
  }

  /** A payment `get_payment_stats` counts in its totals: completed and
      dated within the window. */
  predicate Counted(p: Payment, start: Option<nat>, end: Option<nat>)
    reads p
  {
    p.status == COMPLETED && InWindow(p.paymentDate, start, end)
  }

  /** How many payments are counted: none exactly when no payment is
      completed within the window. */
  function CountCompleted(ps: seq<Payment>, start: Option<nat>, end: Option<nat>): (n: nat)
    reads ps
    ensures n <= |ps|
    ensures n == 0 <==> forall i :: 0 <= i < |ps| ==> !Counted(ps[i], start, end)
    decreases |ps|
  {
    if ps == [] then 0
    else CountCompleted(ps[..|ps| - 1], start, end) + (if Counted(ps[|ps| - 1], start, end) then 1 else 0)
  }

  /** The total of the counted payments: nothing when none is counted. */
  function AmountCompleted(ps: seq<Payment>, start: Option<nat>, end: Option<nat>): (r: real)
    reads ps
    ensures CountCompleted(ps, start, end) == 0 ==> r == 0.0
    ensures (forall i :: 0 <= i < |ps| ==> ps[i].amount >= 0.0) ==> r >= 0.0
    decreases |ps|
  {
    if ps == [] then 0.0
    else AmountCompleted(ps[..|ps| - 1], start, end)
         + (if Counted(ps[|ps| - 1], start, end) then ps[|ps| - 1].amount else 0.0)
  }

  /** The per-method breakdown: for each method of some completed payment,
      how many completed payments used it and their total. The grouping
      query has no date filter. */
  function MethodTotals(ps: seq<Payment>): (r: map<string, (nat, real)>)
    reads ps
    ensures forall m :: m in r ==> r[m].0 >= 1
    ensures (forall i :: 0 <= i < |ps| ==> ps[i].amount >= 0.0) ==> forall m :: m in r ==> r[m].1 >= 0.0
    decreases |ps|
  {
    if ps == [] then map[]
    else
      var prev := MethodTotals(ps[..|ps| - 1]);
      var p := ps[|ps| - 1];
      if p.status != COMPLETED then prev
      else if p.paymentMethod in prev then prev[p.paymentMethod := (prev[p.paymentMethod].0 + 1, prev[p.paymentMethod].1 + p.amount)]
      else prev[p.paymentMethod := (1, p.amount)]
  }

  /** `COUNT(id)` of the completed payments made with method `m`. */
  function CountByMethod(ps: seq<Payment>, m: string): (n: nat)
    reads ps
    ensures n <= CountCompleted(ps, None, None)
    ensures n == 0 <==> forall i :: 0 <= i < |ps| ==> !(ps[i].status == COMPLETED && ps[i].paymentMethod == m)
    decreases |ps|
  {
    if ps == [] then 0
    else
      var front := ps[..|ps| - 1];
      assert forall i :: 0 <= i < |front| ==> front[i] == ps[i];
      CountByMethod(front, m)
      + (if ps[|ps| - 1].status == COMPLETED && ps[|ps| - 1].paymentMethod == m then 1 else 0)
  }

  /** `SUM(amount)` of the completed payments made with method `m`,
      0 when there are none. */
  function AmountByMethod(ps: seq<Payment>, m: string): (r: real)
    reads ps
    ensures CountByMethod(ps, m) == 0 ==> r == 0.0
    decreases |ps|
  {
    if ps == [] then 0.0
    else
      AmountByMethod(ps[..|ps| - 1], m)
      + (if ps[|ps| - 1].status == COMPLETED && ps[|ps| - 1].paymentMethod == m then ps[|ps| - 1].amount else 0.0)
  }

  /** The group of method `m`, if any, is the count and the total of the
      completed payments with that method. */
  lemma {:induction false} MethodGroup(ps: seq<Payment>, m: string)
    ensures m in MethodTotals(ps) ==> MethodTotals(ps)[m] == (CountByMethod(ps, m), AmountByMethod(ps, m))
    ensures m !in MethodTotals(ps) ==> CountByMethod(ps, m) == 0
    decreases |ps|
  {
    if ps != [] {
      var front := ps[..|ps| - 1];
      var p := ps[|ps| - 1];
      MethodGroup(front, m);
      var prev := MethodTotals(front);
      var hit := p.status == COMPLETED && p.paymentMethod == m;
      assert CountByMethod(ps, m) == CountByMethod(front, m) + (if hit then 1 else 0);
      assert AmountByMethod(ps, m) == AmountByMethod(front, m) + (if hit then p.amount else 0.0);
      if !hit {
        assert m in MethodTotals(ps) <==> m in prev;
        assert m in prev ==> MethodTotals(ps)[m] == prev[m];
      }
    }
  }

  /** Each group of the breakdown is the count and the total of the
      completed payments with that method, and a method without completed
      payments has no group. */
  lemma MethodTotalsAreGroups(ps: seq<Payment>)
    ensures forall m :: m in MethodTotals(ps) ==> MethodTotals(ps)[m] == (CountByMethod(ps, m), AmountByMethod(ps, m))
    ensures forall m :: m !in MethodTotals(ps) ==> CountByMethod(ps, m) == 0
  {
    forall m
      ensures m in MethodTotals(ps) ==> MethodTotals(ps)[m] == (CountByMethod(ps, m), AmountByMethod(ps, m))
      ensures m !in MethodTotals(ps) ==> CountByMethod(ps, m) == 0
    {
      MethodGroup(ps, m);
    }
  }

  /** The dictionary `get_payment_stats` returns. */
  datatype PaymentStats = PaymentStats(
    totalPayments: nat, totalAmount: real, paymentMethods: map<string, (nat, real)>)

  /** `get_payment_stats`: the count and total of the completed payments in
      the window and the per-method breakdown of all completed payments. */
  function GetPaymentStats(db: Database, start: Option<nat>, end: Option<nat>): (r: PaymentStats)
    reads db, db.payments
    ensures r.totalPayments == CountCompleted(db.payments, start, end)
    ensures r.totalAmount == AmountCompleted(db.payments, start, end)
    ensures r.paymentMethods == MethodTotals(db.payments)
    ensures r.totalPayments <= CountCompleted(db.payments, None, None) <= |db.payments|
    ensures forall m :: m in r.paymentMethods <==>
              exists i :: 0 <= i < |db.payments| && db.payments[i].status == COMPLETED
                          && db.payments[i].paymentMethod == m
    ensures forall m :: m in r.paymentMethods ==>
              1 <= r.paymentMethods[m].0 <= CountCompleted(db.payments, None, None)
    ensures forall m :: m in r.paymentMethods ==>
              r.paymentMethods[m] == (CountByMethod(db.payments, m), AmountByMethod(db.payments, m))
  {
    WindowNarrowsCount(db.payments, start, end);
    MethodTotalsAreGroups(db.payments);
    MethodTotalsKeys(db.payments);
    MethodCountsBounded(db.payments);
    PaymentStats(CountCompleted(db.payments, start, end), AmountCompleted(db.payments, start, end),
                 MethodTotals(db.payments))
  }

  /** Pending, failed and refunded payments change no figure of the
      statistics. */
  lemma StatsIgnoreNotCompleted(ps: seq<Payment>, p: Payment, start: Option<nat>, end: Option<nat>)
    requires p.status != COMPLETED
    ensures CountCompleted(ps + [p], start, end) == CountCompleted(ps, start, end)
    ensures AmountCompleted(ps + [p], start, end) == AmountCompleted(ps, start, end)
    ensures MethodTotals(ps + [p]) == MethodTotals(ps)
  {
    assert (ps + [p])[..|ps|] == ps;
  }

  /** A date window only removes payments from the count. */
  lemma {:induction false} WindowNarrowsCount(ps: seq<Payment>, start: Option<nat>, end: Option<nat>)
    ensures CountCompleted(ps, start, end) <= CountCompleted(ps, None, None)
    decreases |ps|
  {
    if ps != [] {
      WindowNarrowsCount(ps[..|ps| - 1], start, end);
    }
  }

  /** The breakdown names exactly the methods of the completed payments. */
  lemma {:induction false} MethodTotalsKeys(ps: seq<Payment>)
    ensures forall m :: m in MethodTotals(ps) <==>
              exists i :: 0 <= i < |ps| && ps[i].status == COMPLETED && ps[i].paymentMethod == m
    decreases |ps|
  {
    if ps != [] {
      var front := ps[..|ps| - 1];
      MethodTotalsKeys(front);
      assert forall i :: 0 <= i < |front| ==> front[i] == ps[i];
    }
  }

  /** Each method is used by at least one and at most all the completed
      payments. */
  lemma {:induction false} MethodCountsBounded(ps: seq<Payment>)
    ensures forall m :: m in MethodTotals(ps) ==> 1 <= MethodTotals(ps)[m].0 <= CountCompleted(ps, None, None)
    decreases |ps|
  {
    if ps != [] {
      MethodCountsBounded(ps[..|ps| - 1]);
    }
  }
}
