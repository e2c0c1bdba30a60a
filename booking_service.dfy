/** The booking lifecycle of backend/src/services/booking.service.js: a
    booking is created PENDING with its seats locked, becomes CONFIRMED when
    its seats are booked, CANCELLED on the owner's request, or EXPIRED when
    the sweep finds its reservation window over. */
module BookingService {
  import opened Common
  import opened Constants
  import opened Db
  import opened Seqs
  import opened SeatService

  /** The reservation window of a new booking: thirty minutes. */
  const RESERVATION_WINDOW: int := 30 * 60 * 1000

  /** The hold `createBooking` puts on the seats: ten minutes, written out
      in the service rather than taken from `SEAT_LOCK_EXPIRY`. */
  const BOOKING_SEAT_HOLD: int := 10 * 60 * 1000

  // ---------------------------------------------------------------------
  // The status transitions this service performs.

  /** `a` may become `b` through one call of this service: nothing changes,
      a PENDING booking is confirmed or expired, or a booking that is
      neither CANCELLED nor EXPIRED is cancelled. */
  predicate Transition(a: BookingStatus, b: BookingStatus)
  {
    || a == b
    || (a == Pending && (b == Confirmed || b == Expired))
    || (a != Cancelled && a != Expired && b == Cancelled)
  }

  /** CANCELLED and EXPIRED are terminal, and no transition leads back to
      PENDING; confirmed and expired never follow one another. */
  lemma TransitionProperties(a: BookingStatus, b: BookingStatus)
    requires Transition(a, b)
    ensures (a == Cancelled || a == Expired) ==> b == a
    ensures b == Pending ==> a == Pending
    ensures a == Confirmed ==> b != Expired
    ensures a == Expired ==> b != Confirmed
  {
  }

  /** Every status a booking goes through, under any sequence of calls of
      this service, is reachable by a single transition from the first. */
  lemma {:induction false} TransitionTrace(trace: seq<BookingStatus>)
    requires |trace| > 0
    requires forall k :: 0 <= k < |trace| - 1 ==> Transition(trace[k], trace[k + 1])
    ensures Transition(trace[0], trace[|trace| - 1])
  {
    if |trace| > 1 {
      var init := trace[..|trace| - 1];
      forall k | 0 <= k < |init| - 1 ensures Transition(init[k], init[k + 1]) {
        assert init[k] == trace[k] && init[k + 1] == trace[k + 1];
      }
      TransitionTrace(init);
      assert Transition(trace[0], trace[|trace| - 2]);
    }
  }

  /** Every booking already in the store took one transition. */
  ghost predicate StepsOf(before: seq<Booking>, after: seq<Booking>)
  {
    && |before| <= |after|
    && forall i :: 0 <= i < |before| ==>
         after[i].id == before[i].id && Transition(before[i].status, after[i].status)
  }

  // ---------------------------------------------------------------------
  // Releasing the seats a booking lists (booking.service.js:130-138,
  // 147-155 and 242-250): each listed identifier is looked up and, if the
  // seat is in status `from`, made AVAILABLE.

  function Release(s: Seat, from: SeatStatus): Seat
  {
    if from == Booked then ReleaseBooking(s) else ReleaseLock(s)
  }

  /** Every seat listed in `seatIds` and in status `from`, released. */
  function ReleaseListed(seats: seq<Seat>, seatIds: seq<Id>, from: SeatStatus): seq<Seat>
  {
    seq(|seats|, i requires 0 <= i < |seats| =>
      if seats[i].id in seatIds && seats[i].status == from then Release(seats[i], from) else seats[i])
  }

  /** Releasing `a` and then `b` is releasing `a + b`. */
  lemma ReleaseListedCompose(seats: seq<Seat>, a: seq<Id>, b: seq<Id>, from: SeatStatus)
    requires from != Available
    ensures ReleaseListed(ReleaseListed(seats, a, from), b, from) == ReleaseListed(seats, a + b, from)
  {
    var lhs := ReleaseListed(ReleaseListed(seats, a, from), b, from);
    var rhs := ReleaseListed(seats, a + b, from);
    forall i | 0 <= i < |seats| ensures lhs[i] == rhs[i] {
      assert seats[i].id in a + b <==> seats[i].id in a || seats[i].id in b;
    }
  }

  /** With unique identifiers, releasing one listed identifier is updating
      the seat `find` returns for it. */
  lemma ReleaseOneByFind(seats: seq<Seat>, id: Id, from: SeatStatus)
    requires UniqueSeatIds(seats)
    ensures var k := FindSeat(seats, id);
      ReleaseListed(seats, [id], from) ==
        if k.Some? && seats[k.value].status == from then seats[k.value := Release(seats[k.value], from)] else seats
  {
  }

  /** After releasing, no listed seat is left in status `from`. */
  lemma ReleaseListedReleasesAll(seats: seq<Seat>, seatIds: seq<Id>, from: SeatStatus)
    requires from != Available
    ensures forall i :: 0 <= i < |seats| && seats[i].id in seatIds ==>
      ReleaseListed(seats, seatIds, from)[i].status != from
    ensures forall i :: 0 <= i < |seats| && seats[i].id in seatIds && seats[i].status == from ==>
      ReleaseListed(seats, seatIds, from)[i].status == Available
  {
  }

  lemma ReleaseListedKeepsInvariant(seats: seq<Seat>, seatIds: seq<Id>, from: SeatStatus)
    requires from != Available
    requires UniqueSeatIds(seats) && AllConsistent(seats)
    ensures UniqueSeatIds(ReleaseListed(seats, seatIds, from))
    ensures AllConsistent(ReleaseListed(seats, seatIds, from))
  {
  }

  /** The `booking.seats.forEach(...)` release loop. */
  method ReleaseListedSeats(db: Store, seatIds: seq<Id>, from: SeatStatus)
    requires db.Valid() && from != Available
    modifies db
    ensures db.Valid()
    ensures db.seats == ReleaseListed(old(db.seats), seatIds, from)
    ensures db.users == old(db.users) && db.events == old(db.events)
    ensures db.bookings == old(db.bookings) && db.payments == old(db.payments)
  {
    ghost var s0 := db.seats;
    var j := 0;
    while j < |seatIds|
      invariant 0 <= j <= |seatIds|
      invariant db.seats == ReleaseListed(s0, seatIds[..j], from)
      invariant db.users == old(db.users) && db.events == old(db.events)
      invariant db.bookings == old(db.bookings) && db.payments == old(db.payments)
    {
      ReleaseListedKeepsInvariant(s0, seatIds[..j], from);
      ReleaseOneByFind(db.seats, seatIds[j], from);
      ReleaseListedCompose(s0, seatIds[..j], [seatIds[j]], from);
      assert seatIds[..j + 1] == seatIds[..j] + [seatIds[j]];
      var k := FindSeat(db.seats, seatIds[j]);
      if k.Some? && db.seats[k.value].status == from {
        db.seats := db.seats[k.value := Release(db.seats[k.value], from)];
      }
      j := j + 1;
    }
    assert seatIds[..j] == seatIds;
    ReleaseListedKeepsInvariant(s0, seatIds, from);
  }

  // ---------------------------------------------------------------------
  // createBooking (booking.service.js:12-73)

  /** `seats.reduce((sum, seat) => sum + seat.price, 0)` over the requested seats. */
  function SumPrices(seats: seq<Seat>, eventId: Id, seatIds: seq<Id>): nat
  {
    if |seats| == 0 then 0
    else SumPrices(seats[..|seats| - 1], eventId, seatIds)
         + (if Requested(seats[|seats| - 1], eventId, seatIds) then seats[|seats| - 1].price else 0)
  }

  /** The position of the first requested seat, in store order, that is
      not AVAILABLE: where the locking loop throws. */
  function FirstUnavailable(seats: seq<Seat>, eventId: Id, seatIds: seq<Id>): (r: Option<nat>)
    ensures r.Some? ==> r.value < |seats| && Requested(seats[r.value], eventId, seatIds)
                        && seats[r.value].status != Available
    ensures r.Some? ==> forall j :: 0 <= j < r.value && Requested(seats[j], eventId, seatIds) ==>
                          seats[j].status == Available
    ensures r.None? <==> AllRequestedAvailable(seats, eventId, seatIds)
  {
    if |seats| == 0 then None
    else if Requested(seats[0], eventId, seatIds) && seats[0].status != Available then Some(0)
    else match FirstUnavailable(seats[1..], eventId, seatIds)
      case None => None
      case Some(k) => Some(k + 1)
  }

  /** The checks `createBooking` makes before it touches anything. */
  predicate BookingRequestValid(seats: seq<Seat>, events: seq<Event>, eventId: Id, seatIds: seq<Id>)
  {
    && |seatIds| > 0
    && FindEvent(events, eventId).Some?
    && CountRequested(seats, eventId, seatIds) == |seatIds|
  }

  /** The locking loop of `createBooking`: the requested seats are locked in
      store order until one is met that is not AVAILABLE, where the loop
      stops (`blocked`) and leaves the locks taken so far in place. */
  method LockUntilUnavailable(db: Store, eventId: Id, seatIds: seq<Id>, userId: Id, until: int)
    returns (blocked: bool)
    modifies db
    ensures blocked <==> FirstUnavailable(old(db.seats), eventId, seatIds).Some?
    ensures db.seats == LockRequested(old(db.seats), eventId, seatIds, userId, until,
      match FirstUnavailable(old(db.seats), eventId, seatIds) case Some(k) => k case None => |old(db.seats)|)
    ensures db.users == old(db.users) && db.events == old(db.events)
    ensures db.bookings == old(db.bookings) && db.payments == old(db.payments)
  {
    ghost var s0 := db.seats;
    var i := 0;
    while i < |db.seats|
      invariant 0 <= i <= |s0| == |db.seats|
      invariant db.seats == LockRequested(s0, eventId, seatIds, userId, until, i)
      invariant forall k :: 0 <= k < i && Requested(s0[k], eventId, seatIds) ==> s0[k].status == Available
      invariant db.users == old(db.users) && db.events == old(db.events)
      invariant db.bookings == old(db.bookings) && db.payments == old(db.payments)
    {
      if Requested(db.seats[i], eventId, seatIds) {
        if db.seats[i].status != Available {
          assert FirstUnavailable(s0, eventId, seatIds) == Some(i);
          return true;
        }
        db.seats := db.seats[i := Lock(db.seats[i], userId, until)];
      }
      i := i + 1;
    }
    assert AllRequestedAvailable(s0, eventId, seatIds);
    return false;
  }

  /** Creates a PENDING booking and locks its seats. `bookingId` and
      `bookingReference` stand for the generated identifier and reference. */
  method CreateBooking(db: Store, eventId: Id, seatIds: seq<Id>, userId: Id,
                       bookingId: Id, bookingReference: string, now: int) returns (r: Result<Booking>)
    requires db.Valid()
    requires forall i :: 0 <= i < |db.bookings| ==> db.bookings[i].id != bookingId
    modifies db
    ensures db.Valid()
    ensures db.users == old(db.users) && db.events == old(db.events) && db.payments == old(db.payments)
    ensures |seatIds| == 0 ==> r == Err(ApiError(400, "Seat IDs are required"))
    ensures AllWritten(old(db.bookings)) ==> AllWritten(db.bookings)
    ensures |seatIds| > 0 && FindEvent(db.events, eventId).None? ==> r == Err(ApiError(404, "Event not found"))
    ensures (|seatIds| > 0 && FindEvent(db.events, eventId).Some?
             && CountRequested(old(db.seats), eventId, seatIds) != |seatIds|) ==>
      r == Err(ApiError(400, "Some seats not found"))
    ensures !BookingRequestValid(old(db.seats), db.events, eventId, seatIds) ==>
      db.seats == old(db.seats) && db.bookings == old(db.bookings)
    ensures BookingRequestValid(old(db.seats), db.events, eventId, seatIds) ==>
      match FirstUnavailable(old(db.seats), eventId, seatIds)
      case Some(k) =>
        && r == Err(ApiError(400, "Could not reserve all seats - some may have been booked"))
        && db.bookings == old(db.bookings)
        && db.seats == LockRequested(old(db.seats), eventId, seatIds, userId, now + BOOKING_SEAT_HOLD, k)
      case None =>
        && r == Ok(Booking(bookingId, userId, eventId, seatIds, SumPrices(old(db.seats), eventId, seatIds),
                           Pending, bookingReference, now + RESERVATION_WINDOW, now))
        && db.bookings == old(db.bookings) + [r.value]
        && db.seats == LockRequested(old(db.seats), eventId, seatIds, userId, now + BOOKING_SEAT_HOLD, |old(db.seats)|)
  {
    if |seatIds| == 0 {
      return Err(ApiError(400, "Seat IDs are required"));
    }
    if FindEvent(db.events, eventId).None? {
      return Err(ApiError(404, "Event not found"));
    }
    if CountRequested(db.seats, eventId, seatIds) != |seatIds| {
      return Err(ApiError(400, "Some seats not found"));
    }
    var totalPrice := SumPrices(db.seats, eventId, seatIds);
    var expiryTime := now + RESERVATION_WINDOW;
    var booking := Booking(bookingId, userId, eventId, seatIds, totalPrice, Pending,
                           bookingReference, expiryTime, now);
    var lockedUntil := now + BOOKING_SEAT_HOLD;
    ghost var s0 := db.seats;
    ghost var upTo := match FirstUnavailable(s0, eventId, seatIds) case Some(k) => k case None => |s0|;
    var blocked := LockUntilUnavailable(db, eventId, seatIds, userId, lockedUntil);
    LockRequestedKeepsInvariant(s0, eventId, seatIds, userId, lockedUntil, upTo);
    if blocked {
      return Err(ApiError(400, "Could not reserve all seats - some may have been booked"));
    }
    db.bookings := db.bookings + [booking];
    r := Ok(booking);
  }

  /** A successful `createBooking` leaves every requested seat LOCKED by the
      caller until ten minutes from `now`. */
  lemma CreateBookingLocksEveryRequested(seats: seq<Seat>, eventId: Id, seatIds: seq<Id>, userId: Id, now: int)
    requires UniqueSeatIds(seats)
    requires CountRequested(seats, eventId, seatIds) == |seatIds|
    ensures var after := LockRequested(seats, eventId, seatIds, userId, now + BOOKING_SEAT_HOLD, |seats|);
      forall id :: id in seatIds ==>
        exists i :: (0 <= i < |after| && after[i].id == id && after[i].status == Locked
                     && after[i].lockedBy == Some(userId) && after[i].lockedUntil == Some(now + 600000))
  {
    LockSeatsLocksEveryRequested(seats, eventId, seatIds, userId, now);
  }

  /** The lock in `createBooking` is not all-or-nothing: with a free seat
      ahead of a held one in store order, the request fails and yet the free
      seat stays LOCKED by the caller. */
  lemma CreateBookingLocksPartially(e: Id, a: Seat, b: Seat, userId: Id, now: int)
    requires a.eventId == e && b.eventId == e && a.id != b.id
    requires a.status == Available && b.status == Locked
    ensures var seats := [a, b];
      && FirstUnavailable(seats, e, [a.id, b.id]) == Some(1)
      && LockRequested(seats, e, [a.id, b.id], userId, now + BOOKING_SEAT_HOLD, 1)[0].status == Locked
      && LockRequested(seats, e, [a.id, b.id], userId, now + BOOKING_SEAT_HOLD, 1)[0].lockedBy == Some(userId)
  {
    var seats := [a, b];
    assert Requested(seats[0], e, [a.id, b.id]);
    assert Requested(seats[1], e, [a.id, b.id]);
    assert FirstUnavailable(seats[1..], e, [a.id, b.id]) == Some(0);
  }

  // ---------------------------------------------------------------------
  // confirmBooking (booking.service.js:75-108)

  /** `new Date() > booking.expiryTime`. */
  predicate PastExpiry(b: Booking, now: int)
  {
    now > b.expiryTime
  }

  /** Confirms a PENDING booking of the caller before its expiry, booking
      its seats. */
  method ConfirmBooking(db: Store, bookingId: Id, userId: Id, now: int) returns (r: Result<Booking>)
    requires db.Valid()
    modifies db
    ensures db.Valid()
    ensures AllWritten(old(db.bookings)) ==> AllWritten(db.bookings)
    ensures db.users == old(db.users) && db.payments == old(db.payments)
    ensures StepsOf(old(db.bookings), db.bookings) && |db.bookings| == |old(db.bookings)|
    ensures match FindBooking(old(db.bookings), bookingId)
      case None =>
        r == Err(ApiError(404, "Booking not found")) && db.bookings == old(db.bookings)
        && db.seats == old(db.seats) && db.events == old(db.events)
      case Some(k) =>
        var b := old(db.bookings)[k];
        && (b.userId != userId ==> r == Err(ApiError(403, "Not authorized to confirm this booking")))
        && (b.userId == userId && b.status != Pending ==>
              r == Err(ApiError(400, "Booking is already " + b.status.Name())))
        && (b.userId == userId && b.status == Pending && PastExpiry(b, now) ==>
              r == Err(ApiError(400, "Booking has expired")))
        && (b.userId == userId && b.status == Pending && !PastExpiry(b, now) ==>
              && (|b.seats| == 0 ==> r == Err(ApiError(400, "Seat IDs are required")))
              && (|b.seats| > 0 && CountRequested(old(db.seats), b.eventId, b.seats) != |b.seats| ==>
                    r == Err(ApiError(400, "Some seats not found")))
              && ((|b.seats| > 0 && CountRequested(old(db.seats), b.eventId, b.seats) == |b.seats|
                   && !AllRequestedLockedBy(old(db.seats), b.eventId, b.seats, userId)) ==>
                    r == Err(ApiError(400, "Some seats are not locked by you"))))
        && (r.Err? ==> db.bookings == old(db.bookings) && db.seats == old(db.seats) && db.events == old(db.events))
        && (r.Ok? <==> b.userId == userId && b.status == Pending && !PastExpiry(b, now)
                       && CanBook(old(db.seats), b.eventId, b.seats, userId))
        && (r.Ok? ==>
              && r.value == b.(status := Confirmed)
              && db.bookings == old(db.bookings)[k := r.value]
              && db.seats == BookRequested(old(db.seats), b.eventId, b.seats, userId, bookingId)
              && db.events == AdjustAvailable(old(db.events), b.eventId, -|b.seats|))
  {
    var k := FindBooking(db.bookings, bookingId);
    if k.None? {
      return Err(ApiError(404, "Booking not found"));
    }
    var booking := db.bookings[k.value];
    if booking.userId != userId {
      return Err(ApiError(403, "Not authorized to confirm this booking"));
    }
    if booking.status != Pending {
      return Err(ApiError(400, "Booking is already " + booking.status.Name()));
    }
    if PastExpiry(booking, now) {
      return Err(ApiError(400, "Booking has expired"));
    }
    var booked := BookSeats(db, booking.eventId, booking.seats, userId, bookingId);
    if booked.Err? {
      return Err(booked.error);
    }
    var confirmed := booking.(status := Confirmed);
    BookingKept(db.bookings, k.value, confirmed);
    db.bookings := db.bookings[k.value := confirmed];
    r := Ok(confirmed);
  }

  // ---------------------------------------------------------------------
  // cancelBooking (booking.service.js:110-171)

  /** The seat and event side of `cancelBooking`: a CONFIRMED booking gives
      back its BOOKED seats and its places in `availableSeats`, a PENDING one
      gives back its LOCKED seats, any other status changes nothing. */
  method ReleaseCancelled(db: Store, b: Booking)
    requires db.Valid()
    modifies db
    ensures db.Valid()
    ensures db.users == old(db.users) && db.bookings == old(db.bookings) && db.payments == old(db.payments)
    ensures b.status == Confirmed ==>
      db.seats == ReleaseListed(old(db.seats), b.seats, Booked)
      && db.events == AdjustAvailable(old(db.events), b.eventId, |b.seats|)
    ensures b.status == Pending ==>
      db.seats == ReleaseListed(old(db.seats), b.seats, Locked) && db.events == old(db.events)
    ensures b.status != Confirmed && b.status != Pending ==>
      db.seats == old(db.seats) && db.events == old(db.events)
  {
    if b.status == Confirmed {
      ReleaseListedSeats(db, b.seats, Booked);
      AdjustEventAvailable(db, b.eventId, |b.seats|);
    } else if b.status == Pending {
      ReleaseListedSeats(db, b.seats, Locked);
    }
  }

  /** Cancels the caller's booking unless it is already CANCELLED or EXPIRED,
      releasing its BOOKED seats (when CONFIRMED) or its LOCKED seats (when
      PENDING). */
  method CancelBooking(db: Store, bookingId: Id, userId: Id) returns (r: Result<Booking>)
    requires db.Valid()
    modifies db
    ensures db.Valid()
    ensures AllWritten(old(db.bookings)) ==> AllWritten(db.bookings)
    ensures db.users == old(db.users) && db.payments == old(db.payments)
    ensures StepsOf(old(db.bookings), db.bookings) && |db.bookings| == |old(db.bookings)|
    ensures match FindBooking(old(db.bookings), bookingId)
      case None =>
        r == Err(ApiError(404, "Booking not found")) && db.bookings == old(db.bookings)
        && db.seats == old(db.seats) && db.events == old(db.events)
      case Some(k) =>
        var b := old(db.bookings)[k];
        && (b.userId != userId ==> r == Err(ApiError(403, "Not authorized to cancel this booking")))
        && (b.userId == userId && b.status == Cancelled ==> r == Err(ApiError(400, "Booking is already cancelled")))
        && (b.userId == userId && b.status == Expired ==> r == Err(ApiError(400, "Cannot cancel an expired booking")))
        && (r.Err? ==> db.bookings == old(db.bookings) && db.seats == old(db.seats) && db.events == old(db.events))
        && (r.Ok? <==> b.userId == userId && b.status != Cancelled && b.status != Expired)
        && (r.Ok? ==> r.value == b.(status := Cancelled) && db.bookings == old(db.bookings)[k := r.value])
        && (r.Ok? && b.status == Confirmed ==>
              db.seats == ReleaseListed(old(db.seats), b.seats, Booked)
              && db.events == AdjustAvailable(old(db.events), b.eventId, |b.seats|))
        && (r.Ok? && b.status == Pending ==>
              db.seats == ReleaseListed(old(db.seats), b.seats, Locked) && db.events == old(db.events))
        && (r.Ok? && b.status != Confirmed && b.status != Pending ==>
              db.seats == old(db.seats) && db.events == old(db.events))
  {
    var k := FindBooking(db.bookings, bookingId);
    if k.None? {
      return Err(ApiError(404, "Booking not found"));
    }
    var booking := db.bookings[k.value];
    if booking.userId != userId {
      return Err(ApiError(403, "Not authorized to cancel this booking"));
    }
    if booking.status == Cancelled {
      return Err(ApiError(400, "Booking is already cancelled"));
    }
    if booking.status == Expired {
      return Err(ApiError(400, "Cannot cancel an expired booking"));
    }
    ReleaseCancelled(db, booking);
    var cancelled := booking.(status := Cancelled);
    BookingKept(db.bookings, k.value, cancelled);
    db.bookings := db.bookings[k.value := cancelled];
    r := Ok(cancelled);
  }

  // ---------------------------------------------------------------------
  // expireBookings (booking.service.js:233-263)

  /** A PENDING booking whose `expiryTime` lies before `now`. */
  predicate Expirable(b: Booking, now: int)
  {
    b.status == Pending && b.expiryTime < now
  }

  function ExpireDue(bookings: seq<Booking>, now: int): seq<Booking>
  {
    seq(|bookings|, i requires 0 <= i < |bookings| =>
      if Expirable(bookings[i], now) then bookings[i].(status := Expired) else bookings[i])
  }

  function CountExpirable(bookings: seq<Booking>, now: int): nat
  {
    if |bookings| == 0 then 0
    else CountExpirable(bookings[..|bookings| - 1], now) + (if Expirable(bookings[|bookings| - 1], now) then 1 else 0)
  }

  /** The seat identifiers of the expirable bookings, in store order. */
  function DueSeatIds(bookings: seq<Booking>, now: int): seq<Id>
  {
    if |bookings| == 0 then []
    else DueSeatIds(bookings[..|bookings| - 1], now)
         + (if Expirable(bookings[|bookings| - 1], now) then bookings[|bookings| - 1].seats else [])
  }

  /** One step of the expiry loop: booking `i` becomes EXPIRED and its
      LOCKED seats are released. */
  method ExpireAt(db: Store, i: nat)
    requires db.Valid() && i < |db.bookings|
    modifies db
    ensures db.Valid()
    ensures db.bookings == old(db.bookings)[i := old(db.bookings)[i].(status := Expired)]
    ensures db.seats == ReleaseListed(old(db.seats), old(db.bookings)[i].seats, Locked)
    ensures db.users == old(db.users) && db.events == old(db.events) && db.payments == old(db.payments)
  {
    var booking := db.bookings[i];
    ReleaseListedSeats(db, booking.seats, Locked);
    BookingKept(db.bookings, i, booking.(status := Expired));
    db.bookings := db.bookings[i := booking.(status := Expired)];
  }

  /** Expires every PENDING booking past its window, releases the seats it
      still holds locked, and reports how many bookings it expired. */
  method ExpireBookings(db: Store, now: int) returns (count: nat)
    requires db.Valid()
    modifies db
    ensures db.Valid()
    ensures db.users == old(db.users) && db.events == old(db.events) && db.payments == old(db.payments)
    ensures db.bookings == ExpireDue(old(db.bookings), now)
    ensures AllWritten(old(db.bookings)) ==> AllWritten(db.bookings)
    ensures db.seats == ReleaseListed(old(db.seats), DueSeatIds(old(db.bookings), now), Locked)
    ensures count == CountExpirable(old(db.bookings), now)
    ensures StepsOf(old(db.bookings), db.bookings)
  {
    ghost var b0 := db.bookings;
    ghost var s0 := db.seats;
    count := 0;
    var i := 0;
    while i < |db.bookings|
      invariant 0 <= i <= |b0| == |db.bookings|
      invariant forall k :: 0 <= k < i ==>
        db.bookings[k] == if Expirable(b0[k], now) then b0[k].(status := Expired) else b0[k]
      invariant forall k :: i <= k < |b0| ==> db.bookings[k] == b0[k]
      invariant db.seats == ReleaseListed(s0, DueSeatIds(b0[..i], now), Locked)
      invariant count == CountExpirable(b0[..i], now)
      invariant db.Valid()
      invariant db.users == old(db.users) && db.events == old(db.events) && db.payments == old(db.payments)
    {
      assert b0[..i + 1][..i] == b0[..i];
      assert DueSeatIds(b0[..i + 1], now) ==
        DueSeatIds(b0[..i], now) + (if Expirable(b0[i], now) then b0[i].seats else []);
      assert CountExpirable(b0[..i + 1], now) ==
        CountExpirable(b0[..i], now) + (if Expirable(b0[i], now) then 1 else 0);
      var booking := db.bookings[i];
      if Expirable(booking, now) {
        ReleaseListedCompose(s0, DueSeatIds(b0[..i], now), booking.seats, Locked);
        ExpireAt(db, i);
        count := count + 1;
      }
      i := i + 1;
    }
    assert b0[..i] == b0;
    assert db.bookings == ExpireDue(b0, now);
    ExpireDueSteps(b0, now);
    if AllWritten(b0) {
      ExpireDueWritten(b0, now);
    }
  }

  /** The sweep writes only EXPIRED, so written statuses stay written. */
  lemma ExpireDueWritten(bookings: seq<Booking>, now: int)
    requires AllWritten(bookings)
    ensures AllWritten(ExpireDue(bookings, now))
  {
  }

  /** The sweep moves each booking along an allowed transition. */
  lemma ExpireDueSteps(bookings: seq<Booking>, now: int)
    ensures StepsOf(bookings, ExpireDue(bookings, now))
  {
  }

  /** The count `expireBookings` returns is the number of bookings it
      changed, and only PENDING bookings past their window change. */
  lemma {:induction false} ExpireBookingsCountIsChanges(bookings: seq<Booking>, now: int)
    ensures Changed(bookings, ExpireDue(bookings, now)) == CountExpirable(bookings, now)
  {
    if |bookings| > 0 {
      var n := |bookings| - 1;
      ExpireBookingsCountIsChanges(bookings[..n], now);
      assert ExpireDue(bookings, now)[..n] == ExpireDue(bookings[..n], now);
    }
  }

  /** A second sweep at the same `now` expires nothing and releases nothing. */
  lemma {:induction false} ExpireBookingsTwice(bookings: seq<Booking>, now: int)
    ensures CountExpirable(ExpireDue(bookings, now), now) == 0
    ensures DueSeatIds(ExpireDue(bookings, now), now) == []
    ensures ExpireDue(ExpireDue(bookings, now), now) == ExpireDue(bookings, now)
  {
    if |bookings| > 0 {
      var n := |bookings| - 1;
      ExpireBookingsTwice(bookings[..n], now);
      assert ExpireDue(bookings, now)[..n] == ExpireDue(bookings[..n], now);
    }
  }

  /** `confirmBooking` rejects a PENDING booking as expired exactly when the
      sweep would expire it; at `now == expiryTime` it does neither. */
  lemma ExpiryBoundary(b: Booking, now: int)
    requires b.status == Pending
    ensures PastExpiry(b, now) <==> Expirable(b, now)
    ensures !PastExpiry(b, b.expiryTime) && !Expirable(b, b.expiryTime)
  {
  }

  // ---------------------------------------------------------------------
  // Read queries (booking.service.js:173-231)

  /** The seats a booking lists, looked up one by one; a missing one is `None`. */
  function LookupSeats(seats: seq<Seat>, seatIds: seq<Id>): (r: seq<Option<Seat>>)
    ensures |r| == |seatIds|
    ensures forall j :: 0 <= j < |r| && r[j].Some? ==> r[j].value in seats && r[j].value.id == seatIds[j]
    ensures forall j :: 0 <= j < |r| ==> (r[j].None? <==> forall s :: s in seats ==> s.id != seatIds[j])
  {
    seq(|seatIds|, j requires 0 <= j < |seatIds| => LookupSeat(seats, seatIds[j]))
  }

  /** A found seat, as `find` returns it. */
  function SomeSeat(s: Seat): Option<Seat>
  {
    Some(s)
  }

  predicate IsFound(o: Option<Seat>)
  {
    o.Some?
  }

  /** `filter((s) => s)` on looked-up seats: the found seats, one per found
      entry, in the order of the entries. */
  function FoundSeats(found: seq<Option<Seat>>): (r: seq<Seat>)
    ensures forall s :: s in r <==> Some(s) in found
    ensures MapSeq(r, SomeSeat) == Filter(found, IsFound)
  {
    if |found| == 0 then []
    else
      var head := if found[0].Some? then [found[0].value] else [];
      var rest := FoundSeats(found[1..]);
      assert MapSeq(head + rest, SomeSeat) == MapSeq(head, SomeSeat) + MapSeq(rest, SomeSeat);
      head + rest
  }

  /** `booking.seats.map(find).filter(Boolean)`: the stored seats a booking
      lists, one per listed identifier that is found, in the order the
      booking lists them. */
  function BookingSeats(seats: seq<Seat>, seatIds: seq<Id>): (r: seq<Seat>)
    ensures forall s :: s in r ==> s in seats && s.id in seatIds
    ensures forall m :: 0 <= m < |seats| && seats[m].id in seatIds ==>
      exists s :: s in r && s.id == seats[m].id
    ensures MapSeq(r, SomeSeat) == Filter(LookupSeats(seats, seatIds), IsFound)
  {
    var l := LookupSeats(seats, seatIds);
    var found := FoundSeats(l);
    assert forall m :: 0 <= m < |seats| && seats[m].id in seatIds ==>
      exists s :: s in found && s.id == seats[m].id by {
      forall m | 0 <= m < |seats| && seats[m].id in seatIds
        ensures exists s :: s in found && s.id == seats[m].id
      {
        var j :| 0 <= j < |seatIds| && seatIds[j] == seats[m].id;
        assert l[j].Some? && l[j].value in found;
      }
    }
    found
  }

  datatype BookingDetail = BookingDetail(booking: Booking, event: Option<Event>, seats: seq<Seat>)

  /** `getUserBookings`: the booking with its event and its seats, a missing
      seat as `None`. */
  datatype BookingView = BookingView(booking: Booking, event: Option<Event>, seats: seq<Option<Seat>>)

  /** `getEventBookings`: the booking with its user and its seats. */
  datatype EventBookingView = EventBookingView(booking: Booking, user: Option<User>, seats: seq<Option<Seat>>)

  /** `getBookingById`: the booking with its event and its existing seats. */
  function GetBookingById(db: Store, bookingId: Id, userId: Id): (r: Result<BookingDetail>)
    reads db
    ensures (forall b :: b in db.bookings ==> b.id != bookingId) <==> r == Err(ApiError(404, "Booking not found"))
    ensures r.Ok? ==> r.value.booking in db.bookings && r.value.booking.id == bookingId && r.value.booking.userId == userId
    ensures r.Ok? ==> r.value.event == LookupEvent(db.events, r.value.booking.eventId)
    ensures r.Ok? ==> forall s :: s in r.value.seats ==> s in db.seats && s.id in r.value.booking.seats
    ensures r.Ok? ==> forall m :: 0 <= m < |db.seats| && db.seats[m].id in r.value.booking.seats ==>
      exists s :: s in r.value.seats && s.id == db.seats[m].id
    ensures r.Ok? ==> MapSeq(r.value.seats, SomeSeat) == Filter(LookupSeats(db.seats, r.value.booking.seats), IsFound)
    ensures r.Err? && r.error != ApiError(404, "Booking not found") ==>
      r.error == ApiError(403, "Not authorized to view this booking")
    ensures r.Ok? <==> match FindBooking(db.bookings, bookingId)
      case None => false
      case Some(k) => db.bookings[k].userId == userId
  {
    match FindBooking(db.bookings, bookingId)
    case None => Err(ApiError(404, "Booking not found"))
    case Some(k) =>
      var b := db.bookings[k];
      if b.userId != userId then Err(ApiError(403, "Not authorized to view this booking"))
      else
        var found := BookingSeats(db.seats, b.seats);
        Ok(BookingDetail(b, LookupEvent(db.events, b.eventId), found))
  }

  /** `filters.status` is absent (empty) or equals the stored status string. */
  predicate StatusMatches(b: Booking, status: string)
  {
    status == "" || b.status.Name() == status
  }

  function UserView(events: seq<Event>, seats: seq<Seat>, b: Booking): BookingView
  {
    BookingView(b, LookupEvent(events, b.eventId), LookupSeats(seats, b.seats))
  }

  function EventView(users: seq<User>, seats: seq<Seat>, b: Booking): EventBookingView
  {
    EventBookingView(b, LookupUser(users, b.userId), LookupSeats(seats, b.seats))
  }

  /** The filter of `getUserBookings`: the caller's bookings with the
      requested status. */
  function UserSelects(userId: Id, status: string): Booking -> bool
  {
    (b: Booking) => b.userId == userId && StatusMatches(b, status)
  }

  function UserViewer(events: seq<Event>, seats: seq<Seat>): Booking -> BookingView
  {
    (b: Booking) => UserView(events, seats, b)
  }

  /** The filter of `getEventBookings`: the event's bookings that are not
      CANCELLED. */
  function EventSelects(eventId: Id): Booking -> bool
  {
    (b: Booking) => b.eventId == eventId && b.status != Cancelled
  }

  function EventViewer(users: seq<User>, seats: seq<Seat>): Booking -> EventBookingView
  {
    (b: Booking) => EventView(users, seats, b)
  }

  /** `getUserBookings` over the store's events, seats and bookings: the
      caller's bookings, optionally of one status, each with its event and
      its seats, newest first. */
  function UserBookingList(events: seq<Event>, seats: seq<Seat>, bookings: seq<Booking>, userId: Id, status: string)
    : (r: seq<BookingView>)
    ensures forall v :: v in r ==>
      && v.booking in bookings && v.booking.userId == userId && StatusMatches(v.booking, status)
      && v == UserView(events, seats, v.booking)
    ensures forall b :: b in bookings && b.userId == userId && StatusMatches(b, status) ==>
      UserView(events, seats, b) in r
    ensures forall i, j :: 0 <= i < j < |r| ==> r[i].booking.createdAt >= r[j].booking.createdAt
    ensures multiset(r) == multiset(MapSeq(Filter(bookings, UserSelects(userId, status)), UserViewer(events, seats)))
  {
    FilterMapSortDesc(bookings, UserSelects(userId, status), UserViewer(events, seats),
                      (v: BookingView) => v.booking.createdAt)
  }

  /** The bookings of an event that are not CANCELLED, each with its user
      and its seats, newest first. */
  function EventBookingList(users: seq<User>, seats: seq<Seat>, bookings: seq<Booking>, eventId: Id)
    : (r: seq<EventBookingView>)
    ensures forall v :: v in r ==>
      && v.booking in bookings && v.booking.eventId == eventId && v.booking.status != Cancelled
      && v == EventView(users, seats, v.booking)
    ensures forall b :: b in bookings && b.eventId == eventId && b.status != Cancelled ==>
      EventView(users, seats, b) in r
    ensures forall i, j :: 0 <= i < j < |r| ==> r[i].booking.createdAt >= r[j].booking.createdAt
    ensures multiset(r) == multiset(MapSeq(Filter(bookings, EventSelects(eventId)), EventViewer(users, seats)))
  {
    FilterMapSortDesc(bookings, EventSelects(eventId), EventViewer(users, seats),
                      (v: EventBookingView) => v.booking.createdAt)
  }

  /** `getEventBookings`: the event's creator only. */
  function GetEventBookings(db: Store, eventId: Id, adminId: Id): (r: Result<seq<EventBookingView>>)
    reads db
    ensures FindEvent(db.events, eventId).None? <==> r == Err(ApiError(404, "Event not found"))
    ensures r.Ok? <==> FindEvent(db.events, eventId).Some? && db.events[FindEvent(db.events, eventId).value].createdBy == adminId
    ensures r.Err? && FindEvent(db.events, eventId).Some? ==>
      r.error == ApiError(403, "Not authorized to view bookings for this event")
    ensures r.Ok? ==> r.value == EventBookingList(db.users, db.seats, db.bookings, eventId)
  {
    match FindEvent(db.events, eventId)
    case None => Err(ApiError(404, "Event not found"))
    case Some(k) =>
      if db.events[k].createdBy != adminId then Err(ApiError(403, "Not authorized to view bookings for this event"))
      else Ok(EventBookingList(db.users, db.seats, db.bookings, eventId))
  }
}
