/** `payment_controller`: the controller's own payment rules, which differ
    from `PaymentService`. It charges the package price for the party, less
    10% for a VIP, and confirms the booking whatever was paid before. A
    refund goes through for any payment that is not already refunded, and
    it cancels the booking. A card payment checks the card number. The
    `is_booking_paid` check is a parameter, and so are the transaction id
    and the clock. */
module PaymentController {
  import opened Common
  import opened Text
  import opened UserModel
  import opened BookingModel
  import opened PaymentModel
  import opened Store
  import PaymentService
  import UserController

  /** The method name a card payment is recorded with. */
  const CREDIT_CARD: string := "credit_card"

  /** What a payment costs: the base price, the discount and the amount
      charged. */
  datatype Charge = Charge(base: real, discount: real, amount: real)

  /** The controller's price: the package price for each traveller, and a
      VIP pays 10% less. */
  function ChargeFor(price: real, travelers: int, role: string): (c: Charge)
    ensures c.base == LinePrice(price, travelers)
    ensures c.amount + c.discount == c.base
    ensures c.discount == if role == VIP then c.base / 10.0 else 0.0
  {
    var base := LinePrice(price, travelers);
    var discount := if role == VIP then base * 0.1 else 0.0;
    Charge(base, discount, base - discount)
  }

  /** For a positive price a VIP pays less than the base and anyone else
      pays exactly the base. */
  lemma ChargeOrder(price: real, travelers: int, role: string)
    requires price > 0.0 && travelers > 0
    ensures role == VIP ==> 0.0 < ChargeFor(price, travelers, role).amount < ChargeFor(price, travelers, role).base
    ensures role != VIP ==> ChargeFor(price, travelers, role).amount == ChargeFor(price, travelers, role).base
  {
    PositiveLinePrice(price, travelers);
  }

  lemma PositiveLinePrice(price: real, travelers: int)
    requires price > 0.0 && travelers > 0
    ensures LinePrice(price, travelers) > 0.0
  {
    assert travelers as real >= 1.0;
    assert price * travelers as real >= price * 1.0;
  }

  /** The amounts the receipt prints: the base, the discount and the total. */
  datatype ReceiptAmounts = ReceiptAmounts(baseAmount: real, discount: real, totalAmount: real)

  /** `get_payment_receipt`'s amounts, derived from the amount paid and the
      discount given: the base is added back from the two. */
  function Receipt(amount: real, discount: real): (r: ReceiptAmounts)
    ensures r.totalAmount == amount && r.discount == discount
    ensures r.baseAmount - r.discount == r.totalAmount
  {
    ReceiptAmounts(amount + discount, discount, amount)
  }

  /** A receipt issued for a charge shows the base price the charge started
      from. */
  lemma ReceiptRestoresBase(price: real, travelers: int, role: string)
    ensures var c := ChargeFor(price, travelers, role);
            Receipt(c.amount, c.discount) == ReceiptAmounts(LinePrice(price, travelers), c.discount, c.amount)
  {
  }

  /** The booking a request names, if it names one. */
  function Requested(db: Database, bookingId: Option<int>): (b: Option<Booking>)
    reads db`bookings
    ensures b.Some? ==> bookingId.Some? && b == db.FindBooking(bookingId.value)
    ensures bookingId.Some? ==> b == db.FindBooking(bookingId.value)
  {
    if bookingId.Some? then db.FindBooking(bookingId.value) else None
  }

  /** The checks `process_payment` makes before it charges: the booking id
      and the method are required (400), the booking must exist (404), the
      caller must own it or be an admin (403), it must not already be paid
      (400), and its package must exist (404). Comparing owners reads the id
      of the caller, which raises when the token named a missing user. */
  function PaymentGate(db: Database, current: Option<User>, bookingId: Option<int>,
                       paymentMethod: Option<string>, isBookingPaid: int -> bool)
    : (r: Result<Guard>)
    reads db`bookings, db.bookings, db`packages, AsSet(current)
    ensures !GivenInt(bookingId) || !GivenText(paymentMethod) ==> r == Ok(Deny(BAD_REQUEST))
    ensures GivenInt(bookingId) && GivenText(paymentMethod) && Requested(db, bookingId).None? ==>
              r == Ok(Deny(NOT_FOUND))
    ensures r.Raise? <==>
              GivenInt(bookingId) && GivenText(paymentMethod) && Requested(db, bookingId).Some? && current.None?
    ensures r.Raise? ==> r.exc == AttributeError
    ensures r == Ok(Deny(FORBIDDEN)) <==>
              GivenInt(bookingId) && GivenText(paymentMethod) && Requested(db, bookingId).Some?
              && current.Some? && Requested(db, bookingId).value.userId != current.value.id
              && current.value.role != ADMIN
    ensures r == Ok(Pass) <==>
              GivenInt(bookingId) && GivenText(paymentMethod) && Requested(db, bookingId).Some?
              && current.Some?
              && (Requested(db, bookingId).value.userId == current.value.id || current.value.role == ADMIN)
              && !isBookingPaid(bookingId.value)
              && db.FindPackage(Requested(db, bookingId).value.packageId).Some?
    ensures r.Ok? && r.value.Deny? ==> r.value.code in {BAD_REQUEST, FORBIDDEN, NOT_FOUND}
  {
    if !GivenInt(bookingId) || !GivenText(paymentMethod) then Ok(Deny(BAD_REQUEST))
    else
      var booking := db.FindBooking(bookingId.value);
      if booking.None? then Ok(Deny(NOT_FOUND))
      else if current.None? then Raise(AttributeError)
      else if booking.value.userId != current.value.id && current.value.role != ADMIN then Ok(Deny(FORBIDDEN))
      else if isBookingPaid(bookingId.value) then Ok(Deny(BAD_REQUEST))
      else if db.FindPackage(booking.value.packageId).None? then Ok(Deny(NOT_FOUND))
      else Ok(Pass)
  }

  /** A request the gate stops never reaches the charge: a paid booking is
      refused before any payment row exists. */
  lemma PaidBookingRefused(db: Database, current: Option<User>, bookingId: Option<int>,
                           paymentMethod: Option<string>, isBookingPaid: int -> bool)
    requires GivenInt(bookingId) && isBookingPaid(bookingId.value)
    ensures PaymentGate(db, current, bookingId, paymentMethod, isBookingPaid) != Ok(Pass)
  {
  }

  /** `process_payment` as written. Past the gate it builds the row with
      `Payment(...)` and passes the keywords `payment_date` and
      `discount_applied`, which the `Payment` constructor does not declare,
      so every request that passes the gate raises `TypeError` before
      anything is stored. */
  function ProcessPaymentAsWritten(db: Database, current: Option<User>, bookingId: Option<int>,
                                   paymentMethod: Option<string>, isBookingPaid: int -> bool)
    : (r: Result<nat>)
    reads db`bookings, db.bookings, db`packages, AsSet(current)
    ensures r == Raise(TypeError) <==> PaymentGate(db, current, bookingId, paymentMethod, isBookingPaid) == Ok(Pass)
    ensures r == Raise(AttributeError) <==> PaymentGate(db, current, bookingId, paymentMethod, isBookingPaid).Raise?
    ensures r.Ok? <==> PaymentGate(db, current, bookingId, paymentMethod, isBookingPaid).Ok?
                       && PaymentGate(db, current, bookingId, paymentMethod, isBookingPaid).value.Deny?
    ensures r.Ok? ==> PaymentGate(db, current, bookingId, paymentMethod, isBookingPaid) == Ok(Deny(r.value))
    ensures r != Ok(CREATED)
  {
    var gate := PaymentGate(db, current, bookingId, paymentMethod, isBookingPaid);
    if gate.Raise? then Raise(gate.exc)
    else if gate.value.Deny? then Ok(gate.value.code)
    else Raise(TypeError)
  }

  /** `process_payment` of the controller as intended, with the row built
      from the constructor's own parameters. Past the gate, a completed row
      charging `ChargeFor` is created for the caller and committed, and the
      booking is confirmed unconditionally. */
  method ProcessPayment(db: Database, current: Option<User>, bookingId: Option<int>,
                        paymentMethod: Option<string>, isBookingPaid: int -> bool,
                        transactionId: string, now: nat)
    returns (r: Result<nat>)
    requires db.Valid()
    requires current.Some? ==> current.value in db.users
    modifies db`payments, db`nextId, AsSet(Requested(db, bookingId))`status
    ensures db.Valid()
    ensures r.Raise? <==> PaymentGate(db, current, bookingId, paymentMethod, isBookingPaid).Raise?
    ensures r.Raise? ==> r.exc == AttributeError
    ensures r == Ok(CREATED) <==> old(PaymentGate(db, current, bookingId, paymentMethod, isBookingPaid)) == Ok(Pass)
    ensures r.Ok? && r.value != CREATED ==>
              old(PaymentGate(db, current, bookingId, paymentMethod, isBookingPaid)) == Ok(Deny(r.value))
    ensures r != Ok(CREATED) ==>
              db.payments == old(db.payments) && db.nextId == old(db.nextId)
              && unchanged(AsSet(Requested(db, bookingId)))
    ensures r == Ok(CREATED) ==>
              var b := Requested(db, bookingId).value;
              var c := ChargeFor(db.FindPackage(b.packageId).value.price, b.numberOfTravelers, current.value.role);
              |db.payments| == |old(db.payments)| + 1 && db.payments[..|old(db.payments)|] == old(db.payments)
              && fresh(db.payments[|old(db.payments)|])
              && PaymentService.RecordedPayment(db.payments[|old(db.payments)|], old(db.nextId), b.id,
                                                current.value.id, c.amount, paymentMethod.value, transactionId,
                                                now, None, None)
              && b.status == CONFIRMED
  {
    var gate := PaymentGate(db, current, bookingId, paymentMethod, isBookingPaid);
    if gate.Raise? {
      return Raise(gate.exc);
    }
    if gate.value.Deny? {
      return Ok(gate.value.code);
    }
    var b := db.FindBooking(bookingId.value).value;
    var package := db.FindPackage(b.packageId).value;
    var charge := ChargeFor(package.price, b.numberOfTravelers, current.value.role);
    ChargeAndConfirm(db, b, current.value.id, charge.amount, paymentMethod.value, transactionId, now);
    return Ok(CREATED);
  }

  /** The controller's writes: the payment row (one commit), then the
      booking's new status (another). */
  method ChargeAndConfirm(db: Database, b: Booking, userId: int, amount: real, paymentMethod: string,
                          transactionId: string, now: nat)
    requires db.Valid()
    modifies db`payments, db`nextId, b`status
    ensures db.Valid()
    ensures |db.payments| == |old(db.payments)| + 1 && db.payments[..|old(db.payments)|] == old(db.payments)
    ensures fresh(db.payments[|old(db.payments)|])
    ensures PaymentService.RecordedPayment(db.payments[|old(db.payments)|], old(db.nextId), b.id, userId, amount,
                                           paymentMethod, transactionId, now, None, None)
    ensures b.status == CONFIRMED
  {
    var p := new Payment(db.nextId, b.id, userId, amount, paymentMethod, now, Some(transactionId), COMPLETED);
    db.AddPayment(p);
    b.status := CONFIRMED;
  }

  /** Where the two rules part: a VIP's first payment through the
      controller is a tenth short of the price, which the service's rule
      would leave pending, yet the controller confirms the booking. */
  lemma VipFirstPaymentConfirmsUnderpaid(price: real, travelers: int)
    requires price > 0.0 && travelers > 0
    ensures var c := ChargeFor(price, travelers, VIP);
            c.amount < LinePrice(price, travelers)
            && PaymentService.StatusAfterPayment(PENDING, c.amount, LinePrice(price, travelers)) == PENDING
  {
    ChargeOrder(price, travelers, VIP);
  }

  /** The refund route goes past its checks: the payment exists and is
      not yet refunded, whatever else its status is. */
  predicate RefundGoesAhead(db: Database, paymentId: int)
    reads db`payments, db.payments
  {
    db.FindPayment(paymentId).Some? && db.FindPayment(paymentId).value.status != REFUNDED
  }

  /** Where the two refund rules part: the controller refunds a pending or
      failed payment, which the service refuses. */
  lemma ControllerRefundsUncompleted(db: Database, paymentId: int)
    requires db.FindPayment(paymentId).Some?
    requires db.FindPayment(paymentId).value.status in {PAYMENT_PENDING, FAILED}
    ensures RefundGoesAhead(db, paymentId) && !PaymentService.Refundable(db, paymentId)
  {
  }

  /** `refund_payment` of the controller, an admin-only route. A missing
      payment is 404 and a refunded one 400. Otherwise the payment is
      marked refunded and committed; then its booking is cancelled and
      committed. A payment whose booking is gone raises between the two
      commits, so the refund stays. */
  method RefundPayment(db: Database, current: Option<User>, paymentId: int) returns (r: Result<nat>)
    requires db.Valid()
    modifies AsSet(db.FindPayment(paymentId))`status, PaymentService.BookingOfPayment(db, paymentId)`status
    ensures r.Raise? ==> r.exc == AttributeError
    ensures r == Ok(FORBIDDEN) <==> current.Some? && current.value.role != ADMIN
    ensures r == Ok(NOT_FOUND) <==>
              current.Some? && current.value.role == ADMIN && db.FindPayment(paymentId).None?
    ensures r == Ok(BAD_REQUEST) <==>
              current.Some? && current.value.role == ADMIN && db.FindPayment(paymentId).Some?
              && old(db.FindPayment(paymentId).value.status) == REFUNDED
    ensures r.Raise? <==>
              current.None?
              || (current.value.role == ADMIN && old(RefundGoesAhead(db, paymentId))
                  && PaymentService.BookingOfPayment(db, paymentId) == {})
    ensures r.Ok? ==> r.value in {OK, FORBIDDEN, NOT_FOUND, BAD_REQUEST}
    ensures current.Some? && current.value.role == ADMIN && old(RefundGoesAhead(db, paymentId)) ==>
              db.FindPayment(paymentId).value.status == REFUNDED
              && forall b :: b in PaymentService.BookingOfPayment(db, paymentId) ==> b.status == CANCELLED
    ensures !(current.Some? && current.value.role == ADMIN && old(RefundGoesAhead(db, paymentId))) ==>
              unchanged(AsSet(db.FindPayment(paymentId))) && unchanged(PaymentService.BookingOfPayment(db, paymentId))
  {
    var gate := UserController.RoleRequired(current, [ADMIN]);
    if gate.Raise? {
      return Raise(gate.exc);
    }
    if gate.value.Deny? {
      return Ok(gate.value.code);
    }
    var payment := db.FindPayment(paymentId);
    if payment.None? {
      return Ok(NOT_FOUND);
    }
    var p := payment.value;
    if p.status == REFUNDED {
      return Ok(BAD_REQUEST);
    }
    p.status := REFUNDED;
    var booking := db.FindBooking(p.bookingId);
    if booking.None? {
      return Raise(AttributeError);
    }
    booking.value.status := CANCELLED;
    return Ok(OK);
  }

  /** The card number check: with its spaces removed, 15 or 16 digits. An
      accepted number holds only digits and spaces, and at least 15
      characters. */
  predicate ValidCardNumber(cardNumber: string)
    ensures ValidCardNumber(cardNumber) ==>
              |cardNumber| >= 15 && forall k :: 0 <= k < |cardNumber| ==> cardNumber[k] == ' ' || IsDigit(cardNumber[k])
  {
    var digits := RemoveChar(cardNumber, ' ');
    assert forall k :: 0 <= k < |cardNumber| && cardNumber[k] != ' ' ==> cardNumber[k] in multiset(digits) by {
      forall k | 0 <= k < |cardNumber| && cardNumber[k] != ' ' ensures cardNumber[k] in multiset(digits) {
        assert cardNumber[k] in multiset(cardNumber);
      }
    }
    IsDigits(digits) && |digits| in {15, 16}
  }

  /** `replace` works piecewise. */
  lemma {:induction false} RemoveCharAppend(a: string, b: string, c: char)
    ensures RemoveChar(a + b, c) == RemoveChar(a, c) + RemoveChar(b, c)
    decreases |a|
  {
    if |a| > 0 {
      assert (a + b)[1..] == a[1..] + b;
      RemoveCharAppend(a[1..], b, c);
    } else {
      assert a + b == b;
    }
  }

  /** Spaces anywhere in the number do not change the verdict. */
  lemma SpacesIgnored(a: string, b: string)
    ensures ValidCardNumber(a + " " + b) <==> ValidCardNumber(a + b)
  {
    RemoveCharAppend(a + " ", b, ' ');
    RemoveCharAppend(a, " ", ' ');
    RemoveCharAppend(a, b, ' ');
    assert RemoveChar(" ", ' ') == "";
    assert RemoveChar(a, ' ') + "" == RemoveChar(a, ' ');
  }

  /** An accepted number is made of digits and spaces, with at least 15
      digits. */
  lemma AcceptedCardShape(cardNumber: string)
    requires ValidCardNumber(cardNumber)
    ensures forall i :: 0 <= i < |cardNumber| ==> cardNumber[i] == ' ' || IsDigit(cardNumber[i])
    ensures |cardNumber| >= 15
  {
    var digits := RemoveChar(cardNumber, ' ');
    forall i | 0 <= i < |cardNumber| && cardNumber[i] != ' '
      ensures IsDigit(cardNumber[i])
    {
      var x := cardNumber[i];
      assert x in multiset(cardNumber);
      assert multiset(digits)[x] == multiset(cardNumber)[x];
      assert x in digits;
    }
  }

  /** The checks of `process_card_payment`: the booking id, the card
      number, its expiry date and its CVV are required (400), and the card
      number must pass `ValidCardNumber` (400). */
  function CardGate(bookingId: Option<int>, cardNumber: Option<string>, expiryDate: Option<string>,
                    cvv: Option<string>): (r: Guard)
    ensures r == Pass <==>
              GivenInt(bookingId) && GivenText(cardNumber) && GivenText(expiryDate) && GivenText(cvv)
              && ValidCardNumber(cardNumber.value)
    ensures r.Deny? ==> r.code == BAD_REQUEST
  {
    if !GivenInt(bookingId) || !GivenText(cardNumber) || !GivenText(expiryDate) || !GivenText(cvv) then
      Deny(BAD_REQUEST)
    else if !ValidCardNumber(cardNumber.value) then Deny(BAD_REQUEST)
    else Pass
  }

  /** `process_card_payment` as written. Its last line calls
      `process_payment`, which is the function `token_required` returns. That
      wrapper authenticates again and calls the undecorated handler with the
      user and the original argument, two positional arguments for a
      one-parameter function, so the call raises `TypeError`. */
  function ProcessCardPaymentAsWritten(bookingId: Option<int>, cardNumber: Option<string>,
                                       expiryDate: Option<string>, cvv: Option<string>)
    : (r: Result<Guard>)
    ensures r.Ok? <==> CardGate(bookingId, cardNumber, expiryDate, cvv).Deny?
    ensures r.Ok? ==> r.value == Deny(BAD_REQUEST)
  {
    var gate := CardGate(bookingId, cardNumber, expiryDate, cvv);
    if gate.Deny? then Ok(gate) else Raise(TypeError)
  }

  /** No card payment is ever recorded as written: a request that passes
      every check ends in `TypeError`. */
  lemma CardPaymentNeverCharges(bookingId: Option<int>, cardNumber: Option<string>,
                                expiryDate: Option<string>, cvv: Option<string>)
    requires CardGate(bookingId, cardNumber, expiryDate, cvv) == Pass
    ensures ProcessCardPaymentAsWritten(bookingId, cardNumber, expiryDate, cvv) == Raise(TypeError)
  {
  }

  /** `process_card_payment` as intended: past its checks it is the
      controller's `process_payment` with the method `credit_card`, so a
      valid card on a booking the caller may pay creates a completed
      credit-card payment and confirms the booking. */
  method ProcessCardPayment(db: Database, current: Option<User>, bookingId: Option<int>,
                            cardNumber: Option<string>, expiryDate: Option<string>, cvv: Option<string>,
                            isBookingPaid: int -> bool, transactionId: string, now: nat)
    returns (r: Result<nat>)
    requires db.Valid()
    requires current.Some? ==> current.value in db.users
    modifies db`payments, db`nextId, AsSet(Requested(db, bookingId))`status
    ensures db.Valid()
    ensures CardGate(bookingId, cardNumber, expiryDate, cvv).Deny? ==>
              r == Ok(BAD_REQUEST) && db.payments == old(db.payments)
    ensures r == Ok(CREATED) <==>
              CardGate(bookingId, cardNumber, expiryDate, cvv) == Pass
              && old(PaymentGate(db, current, bookingId, Some(CREDIT_CARD), isBookingPaid)) == Ok(Pass)
    ensures r == Ok(CREATED) ==>
              |db.payments| == |old(db.payments)| + 1
              && db.payments[|old(db.payments)|].paymentMethod == CREDIT_CARD
              && db.payments[|old(db.payments)|].status == COMPLETED
              && Requested(db, bookingId).value.status == CONFIRMED
    ensures r != Ok(CREATED) ==>
              db.payments == old(db.payments) && unchanged(AsSet(Requested(db, bookingId)))
  {
    if CardGate(bookingId, cardNumber, expiryDate, cvv).Deny? {
      return Ok(BAD_REQUEST);
    }
    r := ProcessPayment(db, current, bookingId, Some(CREDIT_CARD), isBookingPaid, transactionId, now);
  }
}
