/** Payments of backend/src/services/payment.service.js: a payment is
    initiated PENDING for a confirmed booking, processed by the gateway
    into a completed or a FAILED payment, and a completed one may be
    refunded. `PAYMENT_STATUS` has no COMPLETED or REFUNDED member, so both
    of those statuses are written as `undefined` (`PaymentUndefined`). */
module PaymentService {
  import opened Common
  import opened Constants
  import opened Db
  import opened Seqs

  /** The payment methods `initiatePayment` accepts. */
  const PAYMENT_METHODS: seq<string> := ["card", "wallet", "upi"]

  const DECLINE_REASON: string := "Payment declined by provider"

  /** The bookings after the status of the first booking `bookingId`, if
      there is one, is set to `status`. */
  function MarkBooking(bookings: seq<Booking>, bookingId: Id, status: BookingStatus): seq<Booking>
  {
    match FindBooking(bookings, bookingId)
    case None => bookings
    case Some(k) => bookings[k := bookings[k].(status := status)]
  }

  /** Marking a booking keeps every identifier and event and changes at
      most the status of the first booking `bookingId`. */
  lemma MarkBookingShape(bookings: seq<Booking>, bookingId: Id, status: BookingStatus)
    ensures var after := MarkBooking(bookings, bookingId, status);
      && |after| == |bookings|
      && (forall i :: 0 <= i < |after| ==> after[i].id == bookings[i].id && after[i].eventId == bookings[i].eventId)
      && (forall i :: 0 <= i < |after| && bookings[i].id != bookingId ==> after[i] == bookings[i])
      && (forall id :: FindBooking(after, id) == FindBooking(bookings, id))
  {
    var after := MarkBooking(bookings, bookingId, status);
    forall id ensures FindBooking(after, id) == FindBooking(bookings, id) {
      FindBookingByIds(after, bookings, id);
    }
  }

  /** `find` by identifier only looks at identifiers. */
  lemma {:induction false} FindBookingByIds(a: seq<Booking>, b: seq<Booking>, id: Id)
    requires |a| == |b|
    requires forall i :: 0 <= i < |a| ==> a[i].id == b[i].id
    ensures FindBooking(a, id) == FindBooking(b, id)
  {
    if |a| > 0 && a[0].id != id {
      FindBookingByIds(a[1..], b[1..], id);
    }
  }

  // ---------------------------------------------------------------------
  // initiatePayment (payment.service.js:19-68)

  /** A payment of the booking that has not FAILED: one "in progress". */
  predicate InProgress(p: Payment, bookingId: Id)
  {
    p.bookingId == bookingId && p.status != PaymentFailed
  }

  function AnyInProgress(payments: seq<Payment>, bookingId: Id): (r: bool)
    ensures r <==> exists i :: 0 <= i < |payments| && InProgress(payments[i], bookingId)
  {
    if |payments| == 0 then false
    else if InProgress(payments[0], bookingId) then true
    else AnyInProgress(payments[1..], bookingId)
  }

  /** Every check of `initiatePayment` passes. The status test compares with
      the literal "confirmed", which no `BOOKING_STATUS` value equals. */
  predicate InitiateAllowed(bookings: seq<Booking>, payments: seq<Payment>, bookingId: Id, userId: Id,
                            paymentMethod: string)
  {
    && paymentMethod in PAYMENT_METHODS
    && FindBooking(bookings, bookingId).Some?
    && var b := bookings[FindBooking(bookings, bookingId).value];
    && b.userId == userId
    && b.status.Name() == "confirmed"
    && !AnyInProgress(payments, bookingId)
  }

  datatype PaymentReceipt = PaymentReceipt(id: Id, bookingId: Id, amount: nat, status: PaymentStatus)

  /** Records a PENDING payment of the booking's total price. `paymentId`
      stands for the generated identifier. */
  method InitiatePayment(db: Store, bookingId: Id, userId: Id, paymentMethod: string, paymentId: Id, now: int)
    returns (r: Result<PaymentReceipt>)
    requires db.Valid()
    requires forall i :: 0 <= i < |db.payments| ==> db.payments[i].id != paymentId
    modifies db
    ensures db.Valid()
    ensures db.users == old(db.users) && db.events == old(db.events)
    ensures db.seats == old(db.seats) && db.bookings == old(db.bookings)
    ensures paymentMethod !in PAYMENT_METHODS ==> r == Err(ApiError(400, "Invalid payment method"))
    ensures paymentMethod in PAYMENT_METHODS ==>
      match FindBooking(db.bookings, bookingId)
      case None => r == Err(ApiError(404, "Booking not found"))
      case Some(k) =>
        var b := db.bookings[k];
        && (b.userId != userId ==> r == Err(ApiError(403, "Not authorized for this booking")))
        && (b.userId == userId && b.status.Name() != "confirmed" ==>
              r == Err(ApiError(400, "Booking must be confirmed before payment")))
        && ((b.userId == userId && b.status.Name() == "confirmed" && AnyInProgress(old(db.payments), bookingId)) ==>
              r == Err(ApiError(400, "Payment already in progress for this booking")))
        && (r.Ok? ==>
              && r.value == PaymentReceipt(paymentId, bookingId, b.totalPrice, PaymentPending)
              && db.payments == old(db.payments)
                   + [Payment(paymentId, bookingId, userId, b.totalPrice, paymentMethod, PaymentPending, None, None, now)])
    ensures r.Ok? <==> InitiateAllowed(db.bookings, old(db.payments), bookingId, userId, paymentMethod)
    ensures r.Err? ==> db.payments == old(db.payments)
  {
    if paymentMethod !in PAYMENT_METHODS {
      return Err(ApiError(400, "Invalid payment method"));
    }
    var k := FindBooking(db.bookings, bookingId);
    if k.None? {
      return Err(ApiError(404, "Booking not found"));
    }
    var booking := db.bookings[k.value];
    if booking.userId != userId {
      return Err(ApiError(403, "Not authorized for this booking"));
    }
    if booking.status.Name() != "confirmed" {
      return Err(ApiError(400, "Booking must be confirmed before payment"));
    }
    if AnyInProgress(db.payments, bookingId) {
      return Err(ApiError(400, "Payment already in progress for this booking"));
    }
    var payment := Payment(paymentId, bookingId, userId, booking.totalPrice, paymentMethod,
                           PaymentPending, None, None, now);
    db.payments := db.payments + [payment];
    r := Ok(PaymentReceipt(paymentId, bookingId, booking.totalPrice, PaymentPending));
  }

  /** No status the services write passes the "confirmed" test, so on a
      store whose statuses they all wrote `initiatePayment` never records a
      payment. */
  lemma InitiateNeverAllowed(bookings: seq<Booking>, payments: seq<Payment>, bookingId: Id, userId: Id,
                             paymentMethod: string)
    requires AllWritten(bookings)
    ensures !InitiateAllowed(bookings, payments, bookingId, userId, paymentMethod)
  {
    var k := FindBooking(bookings, bookingId);
    if k.Some? {
      var s := bookings[k.value].status;
      assert Written(s);
      assert s.Name() != "confirmed" by {
        if s.Other? {
          assert s.name == "completed" || s.name == "refunded";
        }
      }
    }
  }

  /** A store loaded from disk may hold a lower-case "confirmed" booking;
      that store is valid, and there initiation is allowed. */
  lemma InitiateAllowedOnLoaded(b: Booking)
    requires b.status == Other("confirmed")
    ensures AllUnambiguous([b]) && !AllWritten([b])
    ensures InitiateAllowed([b], [], b.id, b.userId, "card")
  {
    assert FindBooking([b], b.id) == Some(0);
  }

  // ---------------------------------------------------------------------
  // processPayment (payment.service.js:70-117)

  /** The payment transitions `processPayment` and `refundPayment` make:
      PENDING to completed or FAILED, completed to refunded (which is
      `undefined` again). FAILED is final; a completed payment stays
      completed. */
  predicate PaymentTransition(a: PaymentStatus, b: PaymentStatus)
  {
    || a == b
    || (a == PaymentPending && (b == PaymentUndefined || b == PaymentFailed))
  }

  /** Overwriting one payment with an allowed transition of itself keeps the
      identifiers unique, and every payment has made an allowed transition. */
  lemma PaymentOverwrite(payments: seq<Payment>, k: nat, p: Payment)
    requires k < |payments| && p.id == payments[k].id && UniquePaymentIds(payments)
    requires PaymentTransition(payments[k].status, p.status)
    ensures UniquePaymentIds(payments[k := p])
    ensures forall i :: 0 <= i < |payments| ==> PaymentTransition(payments[i].status, payments[k := p][i].status)
  {
    PaymentIdsKept(payments, k, p);
  }

  /** A refunded payment is still `undefined`, so it still counts as
      completed and `refundPayment` accepts it again. */
  lemma RefundEncoding()
    ensures PaymentTransition(PaymentUndefined, PaymentUndefined)
    ensures !PaymentTransition(PaymentUndefined, PaymentPending)
    ensures !PaymentTransition(PaymentFailed, PaymentPending)
  {
  }

  /** Stores `p` in place of payment `k`, of which it is an allowed
      transition. */
  method WritePayment(db: Store, k: nat, p: Payment)
    requires db.Valid() && k < |db.payments| && p.id == db.payments[k].id
    requires PaymentTransition(db.payments[k].status, p.status)
    modifies db
    ensures db.Valid()
    ensures db.payments == old(db.payments)[k := p]
    ensures forall i :: 0 <= i < |db.payments| ==> PaymentTransition(old(db.payments)[i].status, db.payments[i].status)
    ensures db.users == old(db.users) && db.events == old(db.events)
    ensures db.seats == old(db.seats) && db.bookings == old(db.bookings)
  {
    PaymentOverwrite(db.payments, k, p);
    db.payments := db.payments[k := p];
  }

  /** `booking.bookingStatus = name` on the payment's booking, if it exists. */
  method MarkStoredBooking(db: Store, bookingId: Id, name: string)
    requires db.Valid() && (name == "completed" || name == "refunded")
    modifies db
    ensures db.Valid()
    ensures db.bookings == MarkBooking(old(db.bookings), bookingId, Other(name))
    ensures AllWritten(old(db.bookings)) ==> AllWritten(db.bookings)
    ensures db.users == old(db.users) && db.events == old(db.events)
    ensures db.seats == old(db.seats) && db.payments == old(db.payments)
  {
    MarkBookingShape(db.bookings, bookingId, Other(name));
    MarkBookingWritten(db.bookings, bookingId, name);
    db.bookings := MarkBooking(db.bookings, bookingId, Other(name));
  }

  datatype ProcessReceipt = ProcessReceipt(id: Id, status: PaymentStatus, transactionId: string, amount: nat)

  /** Sends a PENDING payment of the caller through the gateway. `success`
      stands for the gateway's answer, `transactionId` for the reference it
      generates. */
  method ProcessPayment(db: Store, paymentId: Id, userId: Id, success: bool, transactionId: string)
    returns (r: Result<ProcessReceipt>)
    requires db.Valid()
    modifies db
    ensures db.Valid()
    ensures db.users == old(db.users) && db.events == old(db.events) && db.seats == old(db.seats)
    ensures AllWritten(old(db.bookings)) ==> AllWritten(db.bookings)
    ensures |db.payments| == |old(db.payments)|
    ensures forall i :: 0 <= i < |db.payments| ==> PaymentTransition(old(db.payments)[i].status, db.payments[i].status)
    ensures match FindPayment(old(db.payments), paymentId)
      case None =>
        r == Err(ApiError(404, "Payment not found"))
        && db.payments == old(db.payments) && db.bookings == old(db.bookings)
      case Some(k) =>
        var p := old(db.payments)[k];
        && (p.userId != userId ==> r == Err(ApiError(403, "Not authorized for this payment")))
        && (p.userId == userId && p.status != PaymentPending ==>
              r == Err(ApiError(400, "Payment is already " + p.status.Name())))
        && ((p.userId != userId || p.status != PaymentPending) ==>
              db.payments == old(db.payments) && db.bookings == old(db.bookings))
        && ((p.userId == userId && p.status == PaymentPending && success) ==>
              && r == Ok(ProcessReceipt(paymentId, PaymentUndefined, transactionId, p.amount))
              && db.payments == old(db.payments)[k := p.(status := PaymentUndefined, transactionId := Some(transactionId))]
              && db.bookings == MarkBooking(old(db.bookings), p.bookingId, Other("completed")))
        && ((p.userId == userId && p.status == PaymentPending && !success) ==>
              && r == Err(ApiError(402, "Payment failed. Please try again or use a different payment method"))
              && db.payments == old(db.payments)[k := p.(status := PaymentFailed, failureReason := Some(DECLINE_REASON))]
              && db.bookings == old(db.bookings))
  {
    var k := FindPayment(db.payments, paymentId);
    if k.None? {
      return Err(ApiError(404, "Payment not found"));
    }
    var payment := db.payments[k.value];
    if payment.userId != userId {
      return Err(ApiError(403, "Not authorized for this payment"));
    }
    if payment.status != PaymentPending {
      return Err(ApiError(400, "Payment is already " + payment.status.Name()));
    }
    if success {
      var completed := payment.(status := PaymentUndefined, transactionId := Some(transactionId));
      WritePayment(db, k.value, completed);
      MarkStoredBooking(db, payment.bookingId, "completed");
      r := Ok(ProcessReceipt(paymentId, PaymentUndefined, transactionId, payment.amount));
    } else {
      var failed := payment.(status := PaymentFailed, failureReason := Some(DECLINE_REASON));
      WritePayment(db, k.value, failed);
      r := Err(ApiError(402, "Payment failed. Please try again or use a different payment method"));
    }
  }

  // ---------------------------------------------------------------------
  // refundPayment (payment.service.js:211-253)

  /** Who may refund: the payer, or else the creator of the booking's event.
      When the payment's booking is missing, reading its `eventId` throws a
      TypeError. */
  function RefundAuthorization(bookings: seq<Booking>, events: seq<Event>, p: Payment, userId: Id, adminId: Id)
    : (r: Result<bool>)
    ensures r == Ok(true) <==> (p.userId == userId || (
      && LookupBooking(bookings, p.bookingId).Some?
      && LookupEvent(events, LookupBooking(bookings, p.bookingId).value.eventId).Some?
      && LookupEvent(events, LookupBooking(bookings, p.bookingId).value.eventId).value.createdBy == adminId))
    ensures r == Err(TypeError) <==> p.userId != userId && LookupBooking(bookings, p.bookingId).None?
  {
    if p.userId == userId then Ok(true)
    else match LookupBooking(bookings, p.bookingId)
      case None => Err(TypeError)
      case Some(b) =>
        match LookupEvent(events, b.eventId)
        case None => Ok(false)
        case Some(e) => Ok(e.createdBy == adminId)
  }

  /** Every check of `refundPayment` passes. */
  predicate RefundAllowed(bookings: seq<Booking>, events: seq<Event>, payments: seq<Payment>,
                          paymentId: Id, userId: Id, adminId: Id)
  {
    && FindPayment(payments, paymentId).Some?
    && var p := payments[FindPayment(payments, paymentId).value];
    && RefundAuthorization(bookings, events, p, userId, adminId) == Ok(true)
    && p.status == PaymentUndefined
  }

  datatype RefundReceipt = RefundReceipt(id: Id, status: PaymentStatus, amount: nat)

  /** Refunds a completed payment for its payer or its event's creator. */
  method RefundPayment(db: Store, paymentId: Id, userId: Id, adminId: Id) returns (r: Result<RefundReceipt>)
    requires db.Valid()
    modifies db
    ensures db.Valid()
    ensures db.users == old(db.users) && db.events == old(db.events) && db.seats == old(db.seats)
    ensures db.payments == old(db.payments)
    ensures AllWritten(old(db.bookings)) ==> AllWritten(db.bookings)
    ensures forall i :: 0 <= i < |db.payments| ==> PaymentTransition(old(db.payments)[i].status, db.payments[i].status)
    ensures match FindPayment(db.payments, paymentId)
      case None => r == Err(ApiError(404, "Payment not found"))
      case Some(k) =>
        var p := db.payments[k];
        var auth := RefundAuthorization(old(db.bookings), db.events, p, userId, adminId);
        && (auth.Err? ==> r == Err(TypeError))
        && (auth == Ok(false) ==> r == Err(ApiError(403, "Not authorized to refund this payment")))
        && (auth == Ok(true) && p.status != PaymentUndefined ==>
              r == Err(ApiError(400, "Only completed payments can be refunded")))
        && (r.Ok? ==>
              r.value == RefundReceipt(paymentId, PaymentUndefined, p.amount)
              && db.bookings == MarkBooking(old(db.bookings), p.bookingId, Other("refunded")))
    ensures r.Ok? <==> RefundAllowed(old(db.bookings), db.events, db.payments, paymentId, userId, adminId)
    ensures r.Err? ==> db.bookings == old(db.bookings)
  {
    var k := FindPayment(db.payments, paymentId);
    if k.None? {
      return Err(ApiError(404, "Payment not found"));
    }
    var payment := db.payments[k.value];
    var auth := RefundAuthorization(db.bookings, db.events, payment, userId, adminId);
    if auth.Err? {
      return Err(auth.error);
    }
    if !auth.value {
      return Err(ApiError(403, "Not authorized to refund this payment"));
    }
    if payment.status != PaymentUndefined {
      return Err(ApiError(400, "Only completed payments can be refunded"));
    }
    // PAYMENT_STATUS.REFUNDED is `undefined`: the status is written unchanged.
    db.payments := db.payments[k.value := payment.(status := PaymentUndefined)];
    assert db.payments == old(db.payments);
    MarkStoredBooking(db, payment.bookingId, "refunded");
    r := Ok(RefundReceipt(paymentId, PaymentUndefined, payment.amount));
  }

  /** A refund can be repeated: after a successful refund every check still
      passes for the same caller. */
  lemma RefundRepeatable(bookings: seq<Booking>, events: seq<Event>, payments: seq<Payment>,
                         paymentId: Id, userId: Id, adminId: Id)
    requires RefundAllowed(bookings, events, payments, paymentId, userId, adminId)
    ensures var p := payments[FindPayment(payments, paymentId).value];
      RefundAllowed(MarkBooking(bookings, p.bookingId, Other("refunded")), events, payments, paymentId, userId, adminId)
  {
    var p := payments[FindPayment(payments, paymentId).value];
    var after := MarkBooking(bookings, p.bookingId, Other("refunded"));
    MarkBookingShape(bookings, p.bookingId, Other("refunded"));
    assert FindBooking(after, p.bookingId) == FindBooking(bookings, p.bookingId);
  }

  /** Processing and refunding keep every booking status unambiguous, and
      on a store the services built, among the written ones. */
  lemma MarkBookingWritten(bookings: seq<Booking>, bookingId: Id, name: string)
    requires AllUnambiguous(bookings)
    requires name == "completed" || name == "refunded"
    ensures AllUnambiguous(MarkBooking(bookings, bookingId, Other(name)))
    ensures AllWritten(bookings) ==> AllWritten(MarkBooking(bookings, bookingId, Other(name)))
  {
  }

  // ---------------------------------------------------------------------
  // Read queries (payment.service.js:119-209)

  datatype PaymentDetail = PaymentDetail(payment: Payment, booking: Option<Booking>)

  datatype EventPaymentView = EventPaymentView(payment: Payment, booking: Option<Booking>, user: Option<User>)

  function GetPaymentDetails(db: Store, paymentId: Id, userId: Id): (r: Result<PaymentDetail>)
    reads db
    ensures FindPayment(db.payments, paymentId).None? <==> r == Err(ApiError(404, "Payment not found"))
    ensures r.Ok? <==> FindPayment(db.payments, paymentId).Some?
                       && db.payments[FindPayment(db.payments, paymentId).value].userId == userId
    ensures r.Err? && FindPayment(db.payments, paymentId).Some? ==>
      r.error == ApiError(403, "Not authorized to view this payment")
    ensures r.Ok? ==> r.value.payment in db.payments && r.value.payment.id == paymentId
    ensures r.Ok? ==> r.value.booking == LookupBooking(db.bookings, r.value.payment.bookingId)
  {
    match FindPayment(db.payments, paymentId)
    case None => Err(ApiError(404, "Payment not found"))
    case Some(k) =>
      var p := db.payments[k];
      if p.userId != userId then Err(ApiError(403, "Not authorized to view this payment"))
      else Ok(PaymentDetail(p, LookupBooking(db.bookings, p.bookingId)))
  }

  function Detail(bookings: seq<Booking>, p: Payment): PaymentDetail
  {
    PaymentDetail(p, LookupBooking(bookings, p.bookingId))
  }

  /** The filter of `getUserPayments`: the caller's payments. */
  function PayerSelects(userId: Id): Payment -> bool
  {
    (p: Payment) => p.userId == userId
  }

  function DetailViewer(bookings: seq<Booking>): Payment -> PaymentDetail
  {
    (p: Payment) => Detail(bookings, p)
  }

  /** The caller's payments, each with its booking, newest first. */
  function GetUserPayments(db: Store, userId: Id): (r: seq<PaymentDetail>)
    reads db
    ensures forall v :: v in r ==>
      v.payment in db.payments && v.payment.userId == userId && v == Detail(db.bookings, v.payment)
    ensures forall p :: p in db.payments && p.userId == userId ==> Detail(db.bookings, p) in r
    ensures forall i, j :: 0 <= i < j < |r| ==> r[i].payment.createdAt >= r[j].payment.createdAt
    ensures multiset(r) == multiset(MapSeq(Filter(db.payments, PayerSelects(userId)), DetailViewer(db.bookings)))
  {
    FilterMapSortDesc(db.payments, PayerSelects(userId), DetailViewer(db.bookings),
                      (v: PaymentDetail) => v.payment.createdAt)
  }

  /** `eventBookings.some(b => b._id === bookingId)`. */
  function OfEvent(bookings: seq<Booking>, eventId: Id, bookingId: Id): (r: bool)
    ensures r <==> exists i :: 0 <= i < |bookings| && bookings[i].eventId == eventId && bookings[i].id == bookingId
  {
    if |bookings| == 0 then false
    else if bookings[0].eventId == eventId && bookings[0].id == bookingId then true
    else OfEvent(bookings[1..], eventId, bookingId)
  }

  /** The payments for bookings of the event, in store order. */
  function EventPaymentsOf(bookings: seq<Booking>, payments: seq<Payment>, eventId: Id): (r: seq<Payment>)
    ensures forall i :: 0 <= i < |r| ==> r[i] in payments && OfEvent(bookings, eventId, r[i].bookingId)
    ensures forall i :: 0 <= i < |payments| && OfEvent(bookings, eventId, payments[i].bookingId) ==> payments[i] in r
  {
    Filter(payments, (p: Payment) => OfEvent(bookings, eventId, p.bookingId))
  }

  function PaymentView(bookings: seq<Booking>, users: seq<User>, p: Payment): EventPaymentView
  {
    EventPaymentView(p, LookupBooking(bookings, p.bookingId), LookupUser(users, p.userId))
  }

  /** The filter of `getEventPayments`: the payments of the event's bookings. */
  function EventPaymentSelects(bookings: seq<Booking>, eventId: Id): Payment -> bool
  {
    (p: Payment) => OfEvent(bookings, eventId, p.bookingId)
  }

  function PaymentViewer(bookings: seq<Booking>, users: seq<User>): Payment -> EventPaymentView
  {
    (p: Payment) => PaymentView(bookings, users, p)
  }

  /** The payments for bookings of the event, each with its booking and its
      payer, newest first. */
  function EventPaymentList(bookings: seq<Booking>, users: seq<User>, payments: seq<Payment>, eventId: Id)
    : (r: seq<EventPaymentView>)
    ensures forall v :: v in r ==>
      && v.payment in payments && OfEvent(bookings, eventId, v.payment.bookingId)
      && v == PaymentView(bookings, users, v.payment)
    ensures forall p :: p in payments && OfEvent(bookings, eventId, p.bookingId) ==>
      PaymentView(bookings, users, p) in r
    ensures forall i, j :: 0 <= i < j < |r| ==> r[i].payment.createdAt >= r[j].payment.createdAt
    ensures multiset(r) == multiset(MapSeq(Filter(payments, EventPaymentSelects(bookings, eventId)),
                                           PaymentViewer(bookings, users)))
  {
    FilterMapSortDesc(payments, EventPaymentSelects(bookings, eventId), PaymentViewer(bookings, users),
                      (v: EventPaymentView) => v.payment.createdAt)
  }

  /** `getEventPayments`: the event's creator only. */
  function GetEventPayments(db: Store, eventId: Id, adminId: Id): (r: Result<seq<EventPaymentView>>)
    reads db
    ensures FindEvent(db.events, eventId).None? <==> r == Err(ApiError(404, "Event not found"))
    ensures r.Ok? <==> FindEvent(db.events, eventId).Some? && db.events[FindEvent(db.events, eventId).value].createdBy == adminId
    ensures r.Err? && FindEvent(db.events, eventId).Some? ==>
      r.error == ApiError(403, "Not authorized to view payments for this event")
    ensures r.Ok? ==> r.value == EventPaymentList(db.bookings, db.users, db.payments, eventId)
  {
    match FindEvent(db.events, eventId)
    case None => Err(ApiError(404, "Event not found"))
    case Some(k) =>
      if db.events[k].createdBy != adminId then Err(ApiError(403, "Not authorized to view payments for this event"))
      else Ok(EventPaymentList(db.bookings, db.users, db.payments, eventId))
  }

  /** How many payments have status `s`: `payments.filter(...).length`. */
  function CountStatus(payments: seq<Payment>, s: PaymentStatus): nat
  {
    if |payments| == 0 then 0
    else CountStatus(payments[..|payments| - 1], s) + (if payments[|payments| - 1].status == s then 1 else 0)
  }

  /** The sum of the amounts of the completed (`undefined`) payments. */
  function CompletedRevenue(payments: seq<Payment>): nat
  {
    if |payments| == 0 then 0
    else CompletedRevenue(payments[..|payments| - 1])
         + (if payments[|payments| - 1].status == PaymentUndefined then payments[|payments| - 1].amount else 0)
  }

  datatype PaymentStatistics = PaymentStatistics(
    totalPaymentCount: nat,
    completedPaymentCount: nat,
    failedPaymentCount: nat,
    pendingPaymentCount: nat,
    totalRevenue: nat)

  function Statistics(payments: seq<Payment>): PaymentStatistics
  {
    PaymentStatistics(|payments|, CountStatus(payments, PaymentUndefined), CountStatus(payments, PaymentFailed),
                      CountStatus(payments, PaymentPending), CompletedRevenue(payments))
  }

  /** `getPaymentStatistics`: the event's creator only. */
  function GetPaymentStatistics(db: Store, eventId: Id, adminId: Id): (r: Result<PaymentStatistics>)
    reads db
    ensures FindEvent(db.events, eventId).None? <==> r == Err(ApiError(404, "Event not found"))
    ensures r.Ok? <==> FindEvent(db.events, eventId).Some? && db.events[FindEvent(db.events, eventId).value].createdBy == adminId
    ensures r.Err? && FindEvent(db.events, eventId).Some? ==>
      r.error == ApiError(403, "Not authorized to view statistics for this event")
    ensures r.Ok? ==> r.value == Statistics(EventPaymentsOf(db.bookings, db.payments, eventId))
  {
    match FindEvent(db.events, eventId)
    case None => Err(ApiError(404, "Event not found"))
    case Some(k) =>
      if db.events[k].createdBy != adminId then Err(ApiError(403, "Not authorized to view statistics for this event"))
      else Ok(Statistics(EventPaymentsOf(db.bookings, db.payments, eventId)))
  }

  /** The four statuses partition the payments; since no service writes
      SUCCESS, completed, failed and pending add up to the total when no
      payment is SUCCESS. */
  lemma {:induction false} StatusCountsPartition(payments: seq<Payment>)
    ensures CountStatus(payments, PaymentUndefined) + CountStatus(payments, PaymentFailed)
            + CountStatus(payments, PaymentPending) + CountStatus(payments, PaymentSuccess) == |payments|
  {
    if |payments| > 0 {
      StatusCountsPartition(payments[..|payments| - 1]);
    }
  }

  /** With every amount at most `bound`, the revenue is at most the number
      of completed payments times `bound`, and is zero when no payment is
      completed. */
  lemma {:induction false} RevenueBounds(payments: seq<Payment>, bound: nat)
    requires forall i :: 0 <= i < |payments| ==> payments[i].amount <= bound
    ensures CompletedRevenue(payments) <= CountStatus(payments, PaymentUndefined) * bound
    ensures CountStatus(payments, PaymentUndefined) == 0 ==> CompletedRevenue(payments) == 0
  {
    if |payments| > 0 {
      var n := |payments| - 1;
      RevenueBounds(payments[..n], bound);
    }
  }

  /** The statistics of a store the services built: no SUCCESS payment, so
      the three counts add up to the total. */
  lemma StatisticsAddUp(payments: seq<Payment>)
    requires forall i :: 0 <= i < |payments| ==> payments[i].status != PaymentSuccess
    ensures var s := Statistics(payments);
      s.completedPaymentCount + s.failedPaymentCount + s.pendingPaymentCount == s.totalPaymentCount
  {
    StatusCountsPartition(payments);
    NoSuccessCount(payments);
  }

  lemma {:induction false} NoSuccessCount(payments: seq<Payment>)
    requires forall i :: 0 <= i < |payments| ==> payments[i].status != PaymentSuccess
    ensures CountStatus(payments, PaymentSuccess) == 0
  {
    if |payments| > 0 {
      NoSuccessCount(payments[..|payments| - 1]);
    }
  }
}
