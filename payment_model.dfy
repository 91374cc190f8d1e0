/** A payment row (`payments` table) and the sums the services take over
    the table. Amounts are `real`; the rounding of Python floats is not
    modelled. */
module PaymentModel {
  import opened Common

  /** The payment statuses the code writes or compares with. */
  const PAYMENT_PENDING: string := "pending"
  const COMPLETED: string := "completed"
  const FAILED: string := "failed"
  const REFUNDED: string := "refunded"

  class Payment {
    /** Primary key, fixed once the row exists. */
    const id: nat
    /** Foreign keys, fixed once the row exists. */
    const bookingId: int
    const userId: int
    var amount: real
    var paymentMethod: string
    var transactionId: Option<string>
    var status: string
    /** Seconds since the epoch (`datetime.utcnow()` at construction). */
    var paymentDate: nat
    var cardLastDigits: Option<string>
    var billingAddress: Option<string>

    /** `Payment(...)`: status defaults to pending and no transaction id
        is recorded unless one is given. */
    constructor (id: nat, bookingId: int, userId: int, amount: real, paymentMethod: string,
                 now: nat, transactionId: Option<string> := None,
                 status: string := PAYMENT_PENDING, cardLastDigits: Option<string> := None,
                 billingAddress: Option<string> := None)
      ensures this.id == id && this.bookingId == bookingId && this.userId == userId
      ensures this.amount == amount && this.paymentMethod == paymentMethod
      ensures this.transactionId == transactionId && this.status == status
      ensures this.paymentDate == now
      ensures this.cardLastDigits == cardLastDigits && this.billingAddress == billingAddress
    {
      this.id := id;
      this.bookingId := bookingId;
      this.userId := userId;
      this.amount := amount;
      this.paymentMethod := paymentMethod;
      this.transactionId := transactionId;
      this.status := status;
      this.paymentDate := now;
      this.cardLastDigits := cardLastDigits;
      this.billingAddress := billingAddress;
    }

    /** `complete_payment`: from any status to completed, recording the
        gateway's transaction id; always reports success. */
    method CompletePayment(tid: string) returns (ok: bool)
      modifies this`status, this`transactionId
      ensures ok
      ensures status == COMPLETED && transactionId == Some(tid)
    {
      status := COMPLETED;
      transactionId := Some(tid);
      ok := true;
    }

    /** `refund_payment` on the model object: only a completed payment
        becomes refunded; any other status is left as it is and the call
        reports failure, so a second refund always fails. */
    method RefundPayment() returns (ok: bool)
      modifies this`status
      ensures ok <==> old(status) == COMPLETED
      ensures ok ==> status == REFUNDED
      ensures !ok ==> status == old(status)
    {
      if status == COMPLETED {
        status := REFUNDED;
        ok := true;
      } else {
        ok := false;
      }
    }
  }

  /** What one payment adds to the paid total of booking `bookingId`:
      nothing unless it is a completed payment of that booking, and never a
      negative amount for a non-negative payment. */
  function Contribution(p: Payment, bookingId: int): (r: real)
    reads p
    ensures p.bookingId != bookingId || p.status != COMPLETED ==> r == 0.0
    ensures p.amount >= 0.0 ==> r >= 0.0
  {
    if p.bookingId == bookingId && p.status == COMPLETED then p.amount else 0.0
  }

  /** `SUM(amount) ... WHERE booking_id = b AND status = 'completed'`, with
      `or 0` turning the empty sum into 0. */
  function PaidTotal(ps: seq<Payment>, bookingId: int): (r: real)
    reads ps
    ensures !HasPaymentFor(ps, bookingId) ==> r == 0.0
    decreases |ps|
  {
    if ps == [] then 0.0
    else PaidTotal(ps[..|ps| - 1], bookingId) + Contribution(ps[|ps| - 1], bookingId)
  }

  /** Appending a row adds exactly that row's contribution. */
  lemma PaidTotalAppend(ps: seq<Payment>, p: Payment, bookingId: int)
    ensures PaidTotal(ps + [p], bookingId) == PaidTotal(ps, bookingId) + Contribution(p, bookingId)
  {
    assert (ps + [p])[..|ps|] == ps;
  }

  /** Only completed payments of the booking count: a table whose rows for
      the booking are all pending, failed or refunded has paid total 0. */
  lemma {:induction false} PaidTotalOnlyCompleted(ps: seq<Payment>, bookingId: int)
    requires forall i :: 0 <= i < |ps| ==> ps[i].bookingId != bookingId || ps[i].status != COMPLETED
    ensures PaidTotal(ps, bookingId) == 0.0
    decreases |ps|
  {
    if ps != [] {
      PaidTotalOnlyCompleted(ps[..|ps| - 1], bookingId);
    }
  }

  /** With non-negative amounts the paid total is non-negative. */
  lemma {:induction false} PaidTotalNonNegative(ps: seq<Payment>, bookingId: int)
    requires forall i :: 0 <= i < |ps| ==> ps[i].amount >= 0.0
    ensures PaidTotal(ps, bookingId) >= 0.0
    decreases |ps|
  {
    if ps != [] {
      PaidTotalNonNegative(ps[..|ps| - 1], bookingId);
    }
  }

  /** Some row of the table belongs to the booking (Python's truthiness of
      the `booking.payments` relationship). */
  predicate HasPaymentFor(ps: seq<Payment>, bookingId: int)
    reads ps
  {
    exists i :: 0 <= i < |ps| && ps[i].bookingId == bookingId
  }

  /** The paid total of a booking over every row except `p`. It does not
      read `p`, so it survives any change to `p`. */
  function PaidTotalExcept(ps: seq<Payment>, bookingId: int, p: Payment): real
    reads set q | q in ps && q != p
    decreases |ps|
  {
    if ps == [] then 0.0
    else PaidTotalExcept(ps[..|ps| - 1], bookingId, p)
         + (if ps[|ps| - 1] == p then 0.0 else Contribution(ps[|ps| - 1], bookingId))
  }

  /** Without `p` among the rows, leaving it out changes nothing. */
  lemma {:induction false} PaidTotalExceptAbsent(ps: seq<Payment>, bookingId: int, p: Payment)
    requires p !in ps
    ensures PaidTotalExcept(ps, bookingId, p) == PaidTotal(ps, bookingId)
    decreases |ps|
  {
    if ps != [] {
      PaidTotalExceptAbsent(ps[..|ps| - 1], bookingId, p);
    }
  }

  /** A row that occurs once contributes to the paid total exactly once:
      the total is what the other rows pay plus what it pays. */
  lemma {:induction false} PaidTotalSplit(ps: seq<Payment>, p: Payment, bookingId: int)
    requires forall i, j :: 0 <= i < j < |ps| ==> ps[i] != ps[j]
    requires p in ps
    ensures PaidTotal(ps, bookingId) == PaidTotalExcept(ps, bookingId, p) + Contribution(p, bookingId)
    decreases |ps|
  {
    var front := ps[..|ps| - 1];
    assert ps == front + [ps[|ps| - 1]];
    if ps[|ps| - 1] == p {
      PaidTotalExceptAbsent(front, bookingId, p);
    } else {
      PaidTotalSplit(front, p, bookingId);
    }
  }
}
