/** The shape of the in-memory store `db` of backend/src/config/db.js: one
    array per collection, each record identified by its `_id`. Loading the
    collections from JSON files and saving them back is not part of this
    model; every `saveCollection` call is a no-op here. */
module Db {
  import opened Common
  import opened Constants

  /** Record identifiers (`_id`) and user identities. */
  type Id = string

  datatype User = User(id: Id, name: string, email: string, role: string)

  /** An event. Dates are milliseconds since the epoch. `availableSeats` is a
      plain counter that the services adjust; nothing keeps it non-negative. */
  datatype Event = Event(
    id: Id, title: string, description: string, ticketType: string, venue: string,
    startDateTime: int, endDateTime: int, basePrice: nat, totalSeats: nat,
    availableSeats: int, createdBy: Id, isActive: bool, createdAt: int)

  /** A seat of an event, with its lock fields (`lockedBy`, `lockedUntil`)
      and its booking fields (`bookedBy`, `bookingId`). */
  datatype Seat = Seat(
    id: Id, eventId: Id, seatNumber: string, row: string, column: int, price: nat,
    status: SeatStatus, lockedBy: Option<Id>, lockedUntil: Option<int>,
    bookedBy: Option<Id>, bookingId: Option<Id>, createdAt: int)

  /** A booking of the seats `seats` of one event. */
  datatype Booking = Booking(
    id: Id, userId: Id, eventId: Id, seats: seq<Id>, totalPrice: nat,
    status: BookingStatus, bookingReference: string, expiryTime: int, createdAt: int)

  /** One attempt to pay for a booking. */
  datatype Payment = Payment(
    id: Id, bookingId: Id, userId: Id, amount: nat, paymentMethod: string,
    status: PaymentStatus, transactionId: Option<string>, failureReason: Option<string>,
    createdAt: int)

  /** The per-status field discipline of a seat: an AVAILABLE seat has no lock
      and no booking fields, a LOCKED seat has both lock fields and no booking
      fields, a BOOKED seat has both booking fields and no lock fields. */
  ghost predicate Consistent(s: Seat)
  {
    match s.status
    case Available =>
      s.lockedBy.None? && s.lockedUntil.None? && s.bookedBy.None? && s.bookingId.None?
    case Locked =>
      s.lockedBy.Some? && s.lockedUntil.Some? && s.bookedBy.None? && s.bookingId.None?
    case Booked =>
      s.lockedBy.None? && s.lockedUntil.None? && s.bookedBy.Some? && s.bookingId.Some?
  }

  ghost predicate AllConsistent(seats: seq<Seat>)
  {
    forall i :: 0 <= i < |seats| ==> Consistent(seats[i])
  }

  // `collection.find((x) => x._id === id)`: the index of the first record
  // with that identifier.

  function FindUser(users: seq<User>, id: Id): (r: Option<nat>)
    ensures r.Some? ==> r.value < |users| && users[r.value].id == id
    ensures r.Some? ==> forall j :: 0 <= j < r.value ==> users[j].id != id
    ensures r.None? ==> forall j :: 0 <= j < |users| ==> users[j].id != id
  {
    if |users| == 0 then None
    else if users[0].id == id then Some(0)
    else match FindUser(users[1..], id)
      case None => None
      case Some(k) => Some(k + 1)
  }

  function FindEvent(events: seq<Event>, id: Id): (r: Option<nat>)
    ensures r.Some? ==> r.value < |events| && events[r.value].id == id
    ensures r.Some? ==> forall j :: 0 <= j < r.value ==> events[j].id != id
    ensures r.None? ==> forall j :: 0 <= j < |events| ==> events[j].id != id
  {
    if |events| == 0 then None
    else if events[0].id == id then Some(0)
    else match FindEvent(events[1..], id)
      case None => None
      case Some(k) => Some(k + 1)
  }

  function FindSeat(seats: seq<Seat>, id: Id): (r: Option<nat>)
    ensures r.Some? ==> r.value < |seats| && seats[r.value].id == id
    ensures r.Some? ==> forall j :: 0 <= j < r.value ==> seats[j].id != id
    ensures r.None? ==> forall j :: 0 <= j < |seats| ==> seats[j].id != id
  {
    if |seats| == 0 then None
    else if seats[0].id == id then Some(0)
    else match FindSeat(seats[1..], id)
      case None => None
      case Some(k) => Some(k + 1)
  }

  function FindBooking(bookings: seq<Booking>, id: Id): (r: Option<nat>)
    ensures r.Some? ==> r.value < |bookings| && bookings[r.value].id == id
    ensures r.Some? ==> forall j :: 0 <= j < r.value ==> bookings[j].id != id
    ensures r.None? ==> forall j :: 0 <= j < |bookings| ==> bookings[j].id != id
  {
    if |bookings| == 0 then None
    else if bookings[0].id == id then Some(0)
    else match FindBooking(bookings[1..], id)
      case None => None
      case Some(k) => Some(k + 1)
  }

  function FindPayment(payments: seq<Payment>, id: Id): (r: Option<nat>)
    ensures r.Some? ==> r.value < |payments| && payments[r.value].id == id
    ensures r.Some? ==> forall j :: 0 <= j < r.value ==> payments[j].id != id
    ensures r.None? ==> forall j :: 0 <= j < |payments| ==> payments[j].id != id
  {
    if |payments| == 0 then None
    else if payments[0].id == id then Some(0)
    else match FindPayment(payments[1..], id)
      case None => None
      case Some(k) => Some(k + 1)
  }

  /** `collection.find(...)` returning the record itself, as the read
      queries embed it. */
  function LookupUser(users: seq<User>, id: Id): Option<User>
  {
    match FindUser(users, id)
    case None => None
    case Some(k) => Some(users[k])
  }

  function LookupEvent(events: seq<Event>, id: Id): Option<Event>
  {
    match FindEvent(events, id)
    case None => None
    case Some(k) => Some(events[k])
  }

  function LookupSeat(seats: seq<Seat>, id: Id): Option<Seat>
  {
    match FindSeat(seats, id)
    case None => None
    case Some(k) => Some(seats[k])
  }

  function LookupBooking(bookings: seq<Booking>, id: Id): Option<Booking>
  {
    match FindBooking(bookings, id)
    case None => None
    case Some(k) => Some(bookings[k])
  }

  ghost predicate UniqueUserIds(users: seq<User>)
  {
    forall i, j :: 0 <= i < j < |users| ==> users[i].id != users[j].id
  }

  ghost predicate UniqueEventIds(events: seq<Event>)
  {
    forall i, j :: 0 <= i < j < |events| ==> events[i].id != events[j].id
  }

  ghost predicate UniqueSeatIds(seats: seq<Seat>)
  {
    forall i, j :: 0 <= i < j < |seats| ==> seats[i].id != seats[j].id
  }

  ghost predicate UniqueBookingIds(bookings: seq<Booking>)
  {
    forall i, j :: 0 <= i < j < |bookings| ==> bookings[i].id != bookings[j].id
  }

  ghost predicate UniquePaymentIds(payments: seq<Payment>)
  {
    forall i, j :: 0 <= i < j < |payments| ==> payments[i].id != payments[j].id
  }

  /** A stored `Other` status never spells a name of `BOOKING_STATUS`, so
      comparing the stored strings and comparing the datatype agree. */
  predicate Unambiguous(s: BookingStatus)
  {
    s.Other? ==> s.name !in ["PENDING", "CONFIRMED", "CANCELLED", "EXPIRED"]
  }

  ghost predicate AllUnambiguous(bookings: seq<Booking>)
  {
    forall i :: 0 <= i < |bookings| ==> Unambiguous(bookings[i].status)
  }

  /** The booking statuses the services write: the four of `BOOKING_STATUS`
      and the lower-case "completed" and "refunded" of the payment service.
      A store loaded from disk may hold others, such as "confirmed". */
  predicate Written(s: BookingStatus)
  {
    s.Other? ==> s.name == "completed" || s.name == "refunded"
  }

  ghost predicate AllWritten(bookings: seq<Booking>)
  {
    forall i :: 0 <= i < |bookings| ==> Written(bookings[i].status)
  }

  /** Overwriting a record with one of the same identifier keeps the
      identifiers of its collection unique. */
  lemma EventIdsKept(events: seq<Event>, k: nat, e: Event)
    requires k < |events| && e.id == events[k].id && UniqueEventIds(events)
    ensures UniqueEventIds(events[k := e])
  {
  }

  /** The same for a booking, whose new status is one the services write:
      the statuses stay unambiguous, and stay written ones if they were. */
  lemma BookingKept(bookings: seq<Booking>, k: nat, b: Booking)
    requires k < |bookings| && b.id == bookings[k].id && UniqueBookingIds(bookings)
    requires AllUnambiguous(bookings) && Written(b.status)
    ensures UniqueBookingIds(bookings[k := b]) && AllUnambiguous(bookings[k := b])
    ensures AllWritten(bookings) ==> AllWritten(bookings[k := b])
  {
  }

  lemma PaymentIdsKept(payments: seq<Payment>, k: nat, p: Payment)
    requires k < |payments| && p.id == payments[k].id && UniquePaymentIds(payments)
    ensures UniquePaymentIds(payments[k := p])
  {
  }

  /** The global `db` object: one sequence per collection. */
  class Store {
    var users: seq<User>
    var events: seq<Event>
    var seats: seq<Seat>
    var bookings: seq<Booking>
    var payments: seq<Payment>

    /** Identifiers are unique within each collection, every seat obeys
        the per-status field discipline, and no `Other` booking status spells
        a name of `BOOKING_STATUS`. */
    ghost predicate Valid()
      reads this
    {
      && UniqueUserIds(users)
      && UniqueEventIds(events)
      && UniqueSeatIds(seats)
      && UniqueBookingIds(bookings)
      && UniquePaymentIds(payments)
      && AllConsistent(seats)
      && AllUnambiguous(bookings)
    }

    /** The store as the process starts it: every collection empty. */
    constructor ()
      ensures Valid()
      ensures users == [] && events == [] && seats == [] && bookings == [] && payments == []
    {
      users, events, seats, bookings, payments := [], [], [], [], [];
    }
  }
}
