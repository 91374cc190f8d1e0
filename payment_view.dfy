/** `payment_view`: the payment routes of the `/api/payments` blueprint,
    which check the request and then hand over to `PaymentService`. Unlike
    the controller they take the amount from the client and refuse to
    charge a cancelled booking. Every exception inside their `try` becomes
    a 500 answer. */
module PaymentView {
  import opened Common
  import opened UserModel
  import opened BookingModel
  import opened PaymentModel
  import opened Store
  import PaymentService
  import PaymentController
  import UserController

  /** The checks of the view's `process_payment`: booking id, amount and
      method are required (400), the booking must exist (404), the caller
      must own it or be an admin (403; reading the id of a missing caller
      raises, which the `try` turns into 500), and a cancelled booking is
      refused (400). */
  function ViewPaymentGate(db: Database, current: Option<User>, bookingId: Option<int>, amount: Option<real>,
                           paymentMethod: Option<string>)
    : (r: Guard)
    reads db`bookings, db.bookings, AsSet(current)
    ensures r == Pass <==>
              GivenInt(bookingId) && GivenReal(amount) && GivenText(paymentMethod)
              && PaymentController.Requested(db, bookingId).Some? && current.Some?
              && (PaymentController.Requested(db, bookingId).value.userId == current.value.id
                  || current.value.role == ADMIN)
              && PaymentController.Requested(db, bookingId).value.status != CANCELLED
    ensures !GivenInt(bookingId) || !GivenReal(amount) || !GivenText(paymentMethod) ==> r == Deny(BAD_REQUEST)
    ensures r == Pass ==> PaymentController.Requested(db, bookingId).value.status != CANCELLED
    ensures GivenInt(bookingId) && PaymentController.Requested(db, bookingId).Some?
              && PaymentController.Requested(db, bookingId).value.status == CANCELLED ==>
              r.Deny?
    ensures r.Deny? ==> r.code in {BAD_REQUEST, FORBIDDEN, NOT_FOUND, SERVER_ERROR}
    ensures r == Deny(SERVER_ERROR) <==>
              GivenInt(bookingId) && GivenReal(amount) && GivenText(paymentMethod)
              && PaymentController.Requested(db, bookingId).Some? && current.None?
  {
    if !GivenInt(bookingId) || !GivenReal(amount) || !GivenText(paymentMethod) then Deny(BAD_REQUEST)
    else
      var booking := db.FindBooking(bookingId.value);
      if booking.None? then Deny(NOT_FOUND)
      else if current.None? then Deny(SERVER_ERROR)
      else if booking.value.userId != current.value.id && current.value.role != ADMIN then Deny(FORBIDDEN)
      else if booking.value.status == CANCELLED then Deny(BAD_REQUEST)
      else Pass
  }

  /** Where the view and the controller part: on a cancelled booking that
      the caller owns, the controller's checks let the payment through and
      the view's refuse it. */
  lemma CancelledBookingOnlyViewRefuses(db: Database, current: User, bookingId: int, amount: real,
                                        paymentMethod: string, isBookingPaid: int -> bool)
    requires bookingId != 0 && amount != 0.0 && paymentMethod != ""
    requires db.FindBooking(bookingId).Some? && db.FindBooking(bookingId).value.status == CANCELLED
    requires db.FindBooking(bookingId).value.userId == current.id
    requires !isBookingPaid(bookingId) && db.FindPackage(db.FindBooking(bookingId).value.packageId).Some?
    ensures PaymentController.PaymentGate(db, Some(current), Some(bookingId), Some(paymentMethod), isBookingPaid)
            == Ok(Pass)
    ensures ViewPaymentGate(db, Some(current), Some(bookingId), Some(amount), Some(paymentMethod))
            == Deny(BAD_REQUEST)
  {
  }

  /** The view's `process_payment`: past its checks, `PaymentService`'s
      `process_payment` with the client's amount. Its result is answered
      with 201, its exception with 500. A cancelled booking is never
      charged. */
  method ProcessPayment(db: Database, current: Option<User>, bookingId: Option<int>, amount: Option<real>,
                        paymentMethod: Option<string>, cardLastDigits: Option<string>,
                        billingAddress: Option<string>, transactionId: string, now: nat)
    returns (code: nat, outcome: Option<PaymentService.PaymentOutcome>)
    requires db.Valid()
    requires current.Some? ==> current.value in db.users
    modifies db`payments, db`nextId, AsSet(PaymentController.Requested(db, bookingId))`status
    ensures db.Valid()
    ensures code in {CREATED, BAD_REQUEST, FORBIDDEN, NOT_FOUND, SERVER_ERROR}
    ensures code == CREATED <==> outcome.Some?
    ensures old(ViewPaymentGate(db, current, bookingId, amount, paymentMethod)).Deny? ==>
              code == old(ViewPaymentGate(db, current, bookingId, amount, paymentMethod)).code
    ensures code == CREATED <==>
              old(ViewPaymentGate(db, current, bookingId, amount, paymentMethod)) == Pass
              && old(PaymentController.Requested(db, bookingId).value.totalPrice).Some?
    ensures code != CREATED ==>
              db.payments == old(db.payments) && db.nextId == old(db.nextId)
              && unchanged(AsSet(PaymentController.Requested(db, bookingId)))
    ensures code == CREATED ==>
              var b := PaymentController.Requested(db, bookingId).value;
              old(b.status) != CANCELLED
              && |db.payments| == |old(db.payments)| + 1
              && PaymentService.RecordedPayment(db.payments[|old(db.payments)|], old(db.nextId), b.id,
                                                current.value.id, amount.value, paymentMethod.value,
                                                transactionId, now, cardLastDigits, billingAddress)
              && b.status == PaymentService.StatusAfterPayment(old(b.status), PaidTotal(db.payments, b.id),
                                                               b.totalPrice.value)
  {
    var gate := ViewPaymentGate(db, current, bookingId, amount, paymentMethod);
    if gate.Deny? {
      return gate.code, None;
    }
    var result := PaymentService.ProcessPayment(db, bookingId.value, current.value.id, amount.value,
                                                paymentMethod.value, transactionId, now,
                                                cardLastDigits, billingAddress);
    if result.Raise? {
      return SERVER_ERROR, None;
    }
    return CREATED, Some(result.value);
  }

  /** The view's `refund_payment`, an admin-only route: `PaymentService`'s
      refund, answered with 200 when it reports success, 400 when it
      refuses and 500 when it raises. The role check runs outside the
      `try`, so a token for a missing user escapes as an exception. */
  method RefundPayment(db: Database, current: Option<User>, paymentId: int) returns (r: Result<nat>)
    requires db.Valid()
    modifies AsSet(db.FindPayment(paymentId))`status, PaymentService.BookingOfPayment(db, paymentId)`status
    ensures r.Raise? <==> current.None?
    ensures r.Raise? ==> r.exc == AttributeError
    ensures r == Ok(FORBIDDEN) <==> current.Some? && current.value.role != ADMIN
    ensures r == Ok(BAD_REQUEST) <==>
              current.Some? && current.value.role == ADMIN && !old(PaymentService.Refundable(db, paymentId))
    ensures r == Ok(SERVER_ERROR) <==>
              current.Some? && current.value.role == ADMIN && old(PaymentService.RefundRaises(db, paymentId))
    ensures r.Ok? ==> r.value in {OK, FORBIDDEN, BAD_REQUEST, SERVER_ERROR}
    ensures r != Ok(OK) ==>
              unchanged(AsSet(db.FindPayment(paymentId))) && unchanged(PaymentService.BookingOfPayment(db, paymentId))
    ensures r == Ok(OK) ==>
              db.FindPayment(paymentId).value.status == REFUNDED && !PaymentService.Refundable(db, paymentId)
  {
    var gate := UserController.RoleRequired(current, [ADMIN]);
    if gate.Raise? {
      return Raise(gate.exc);
    }
    if gate.value.Deny? {
      return Ok(gate.value.code);
    }
    var result := PaymentService.RefundPayment(db, paymentId);
    if result.Raise? {
      return Ok(SERVER_ERROR);
    }
    return Ok(if result.value then OK else BAD_REQUEST);
  }
}
