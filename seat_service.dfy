/** The seat inventory of backend/src/services/seat.service.js: seats move
    AVAILABLE -> LOCKED -> BOOKED, with the lock fields `lockedBy` and
    `lockedUntil` and the booking fields `bookedBy` and `bookingId`. */
module SeatService {
  import opened Common
  import opened Constants
  import opened Db
  import opened Seqs

  // ---------------------------------------------------------------------
  // The transitions of one seat.

  function Lock(s: Seat, userId: Id, until: int): Seat
  {
    s.(status := Locked, lockedBy := Some(userId), lockedUntil := Some(until))
  }

  function Book(s: Seat, userId: Id, bookingId: Id): Seat
  {
    s.(status := Booked, bookedBy := Some(userId), bookingId := Some(bookingId),
       lockedBy := None, lockedUntil := None)
  }

  /** A LOCKED seat made AVAILABLE again: the lock fields are cleared. */
  function ReleaseLock(s: Seat): Seat
  {
    s.(status := Available, lockedBy := None, lockedUntil := None)
  }

  /** A BOOKED seat made AVAILABLE again: the booking fields are cleared. */
  function ReleaseBooking(s: Seat): Seat
  {
    s.(status := Available, bookedBy := None, bookingId := None)
  }

  // ---------------------------------------------------------------------
  // Selecting the requested seats: `seatIds.includes(s._id) && s.eventId === eventId`.

  predicate Requested(s: Seat, eventId: Id, seatIds: seq<Id>)
  {
    s.id in seatIds && s.eventId == eventId
  }

  /** The length of `db.seats.filter(requested)`. */
  function CountRequested(seats: seq<Seat>, eventId: Id, seatIds: seq<Id>): nat
  {
    if |seats| == 0 then 0
    else CountRequested(seats[..|seats| - 1], eventId, seatIds)
         + (if Requested(seats[|seats| - 1], eventId, seatIds) then 1 else 0)
  }

  /** The identifiers of the requested seats found in the store. */
  ghost function RequestedIds(seats: seq<Seat>, eventId: Id, seatIds: seq<Id>): set<Id>
  {
    if |seats| == 0 then {}
    else RequestedIds(seats[..|seats| - 1], eventId, seatIds)
         + (if Requested(seats[|seats| - 1], eventId, seatIds) then {seats[|seats| - 1].id} else {})
  }

  lemma {:induction false} RequestedIdsMembers(seats: seq<Seat>, eventId: Id, seatIds: seq<Id>)
    ensures forall x :: x in RequestedIds(seats, eventId, seatIds) <==>
      exists i :: 0 <= i < |seats| && seats[i].id == x && Requested(seats[i], eventId, seatIds)
  {
    if |seats| > 0 {
      var n := |seats| - 1;
      RequestedIdsMembers(seats[..n], eventId, seatIds);
      forall x ensures x in RequestedIds(seats, eventId, seatIds) <==>
        exists i :: 0 <= i < |seats| && seats[i].id == x && Requested(seats[i], eventId, seatIds)
      {
        if x in RequestedIds(seats[..n], eventId, seatIds) {
          var i :| 0 <= i < n && seats[..n][i].id == x && Requested(seats[..n][i], eventId, seatIds);
          assert seats[i] == seats[..n][i];
        }
        if exists i :: 0 <= i < |seats| && seats[i].id == x && Requested(seats[i], eventId, seatIds) {
          var i :| 0 <= i < |seats| && seats[i].id == x && Requested(seats[i], eventId, seatIds);
          if i < n {
            assert seats[..n][i] == seats[i];
          }
        }
      }
    }
  }

  /** With unique seat identifiers, the number of requested seats found is
      the number of distinct requested identifiers found. */
  lemma {:induction false} CountRequestedIsCard(seats: seq<Seat>, eventId: Id, seatIds: seq<Id>)
    requires UniqueSeatIds(seats)
    ensures CountRequested(seats, eventId, seatIds) == |RequestedIds(seats, eventId, seatIds)|
  {
    if |seats| > 0 {
      var n := |seats| - 1;
      var init := seats[..n];
      assert UniqueSeatIds(init) by {
        forall i, j | 0 <= i < j < |init| ensures init[i].id != init[j].id {
          assert init[i] == seats[i] && init[j] == seats[j];
        }
      }
      CountRequestedIsCard(init, eventId, seatIds);
      if Requested(seats[n], eventId, seatIds) {
        RequestedIdsMembers(init, eventId, seatIds);
        assert seats[n].id !in RequestedIds(init, eventId, seatIds) by {
          forall i | 0 <= i < n ensures init[i].id != seats[n].id {
            assert init[i] == seats[i];
          }
        }
        assert RequestedIds(seats, eventId, seatIds) == RequestedIds(init, eventId, seatIds) + {seats[n].id};
      }
    }
  }

  /** Every requested identifier names a seat of the event. */
  ghost predicate AllFound(seats: seq<Seat>, eventId: Id, seatIds: seq<Id>)
  {
    forall id :: id in seatIds ==>
      exists i :: 0 <= i < |seats| && seats[i].id == id && seats[i].eventId == eventId
  }

  lemma FoundWithinRequested(seats: seq<Seat>, eventId: Id, seatIds: seq<Id>)
    ensures RequestedIds(seats, eventId, seatIds) <= Elements(seatIds)
  {
    RequestedIdsMembers(seats, eventId, seatIds);
  }

  /** When as many seats match as identifiers were requested, the
      identifiers are distinct and every one of them was found. */
  lemma CountMatchMeansAllFound(seats: seq<Seat>, eventId: Id, seatIds: seq<Id>)
    requires UniqueSeatIds(seats)
    requires CountRequested(seats, eventId, seatIds) == |seatIds|
    ensures Distinct(seatIds) && AllFound(seats, eventId, seatIds)
  {
    var found := RequestedIds(seats, eventId, seatIds);
    CountRequestedIsCard(seats, eventId, seatIds);
    FoundWithinRequested(seats, eventId, seatIds);
    ElementsCard(seatIds);
    SubsetCard(found, Elements(seatIds));
    RequestedIdsMembers(seats, eventId, seatIds);
    forall id | id in seatIds
      ensures exists i :: 0 <= i < |seats| && seats[i].id == id && seats[i].eventId == eventId
    {
      assert id in Elements(seatIds);
      assert id in found;
      var i :| 0 <= i < |seats| && seats[i].id == id && Requested(seats[i], eventId, seatIds);
    }
  }

  /** Distinct identifiers that all name seats of the event pass the count check. */
  lemma AllFoundMeansCountMatch(seats: seq<Seat>, eventId: Id, seatIds: seq<Id>)
    requires UniqueSeatIds(seats)
    requires Distinct(seatIds) && AllFound(seats, eventId, seatIds)
    ensures CountRequested(seats, eventId, seatIds) == |seatIds|
  {
    var found := RequestedIds(seats, eventId, seatIds);
    CountRequestedIsCard(seats, eventId, seatIds);
    FoundWithinRequested(seats, eventId, seatIds);
    ElementsCard(seatIds);
    RequestedIdsMembers(seats, eventId, seatIds);
    assert Elements(seatIds) <= found by {
      forall id | id in Elements(seatIds) ensures id in found {
        var i :| 0 <= i < |seats| && seats[i].id == id && seats[i].eventId == eventId;
        assert Requested(seats[i], eventId, seatIds);
      }
    }
    assert found == Elements(seatIds);
  }

  /** The check `seats.length !== seatIds.length` passes exactly when the
      requested identifiers are pairwise distinct and each names a seat of
      the event: a repeated identifier is reported as "Some seats not found". */
  lemma RequestedCountExact(seats: seq<Seat>, eventId: Id, seatIds: seq<Id>)
    requires UniqueSeatIds(seats)
    ensures CountRequested(seats, eventId, seatIds) == |seatIds| <==>
      Distinct(seatIds) && AllFound(seats, eventId, seatIds)
  {
    if CountRequested(seats, eventId, seatIds) == |seatIds| {
      CountMatchMeansAllFound(seats, eventId, seatIds);
    }
    if Distinct(seatIds) && AllFound(seats, eventId, seatIds) {
      AllFoundMeansCountMatch(seats, eventId, seatIds);
    }
  }

  // ---------------------------------------------------------------------
  // createSeats (seat.service.js:11-48)

  /** The per-seat fields a request supplies. */
  datatype SeatInput = SeatInput(seatNumber: string, row: string, column: int, price: nat)

  /** The record built for one requested seat. */
  function NewSeat(input: SeatInput, id: Id, eventId: Id, now: int): Seat
  {
    Seat(id, eventId, input.seatNumber, input.row, input.column, input.price,
         Available, None, None, None, None, now)
  }

  function NewSeats(inputs: seq<SeatInput>, ids: seq<Id>, eventId: Id, now: int): seq<Seat>
    requires |ids| == |inputs|
  {
    seq(|inputs|, i requires 0 <= i < |inputs| => NewSeat(inputs[i], ids[i], eventId, now))
  }

  /** Creates the seats of an event. `freshIds` are the identifiers
      `generateId` hands out, one per requested seat. */
  method CreateSeats(db: Store, eventId: Id, seatsData: seq<SeatInput>, adminId: Id,
                     freshIds: seq<Id>, now: int) returns (r: Result<seq<Seat>>)
    requires db.Valid()
    requires |freshIds| == |seatsData| && Distinct(freshIds)
    requires forall i, j :: 0 <= i < |db.seats| && 0 <= j < |freshIds| ==> db.seats[i].id != freshIds[j]
    modifies db
    ensures db.Valid()
    ensures db.users == old(db.users) && db.events == old(db.events)
    ensures db.bookings == old(db.bookings) && db.payments == old(db.payments)
    ensures var k := FindEvent(db.events, eventId);
      && (k.None? ==> r == Err(ApiError(404, "Event not found")))
      && (k.Some? && db.events[k.value].createdBy != adminId ==>
            r == Err(ApiError(403, "Not authorized to create seats for this event")))
      && (k.Some? && db.events[k.value].createdBy == adminId && |seatsData| == 0 ==>
            r == Err(ApiError(400, "Seats data is required")))
      && (k.Some? && db.events[k.value].createdBy == adminId && |seatsData| > 0
            && |seatsData| > db.events[k.value].totalSeats ==>
            r == Err(ApiError(400, "Number of seats exceeds event capacity")))
      && (r.Ok? <==> k.Some? && db.events[k.value].createdBy == adminId && 0 < |seatsData| <= db.events[k.value].totalSeats)
    ensures r.Err? ==> db.seats == old(db.seats)
    ensures r.Ok? ==> r.value == NewSeats(seatsData, freshIds, eventId, now)
    ensures r.Ok? ==> db.seats == old(db.seats) + r.value
    ensures r.Ok? ==> forall i :: 0 <= i < |r.value| ==>
      && r.value[i].eventId == eventId && r.value[i].status == Available
      && r.value[i].lockedBy.None? && r.value[i].lockedUntil.None?
      && r.value[i].bookedBy.None? && r.value[i].bookingId.None?
  {
    var k := FindEvent(db.events, eventId);
    if k.None? {
      return Err(ApiError(404, "Event not found"));
    }
    var event := db.events[k.value];
    if event.createdBy != adminId {
      return Err(ApiError(403, "Not authorized to create seats for this event"));
    }
    if |seatsData| == 0 {
      return Err(ApiError(400, "Seats data is required"));
    }
    if |seatsData| > event.totalSeats {
      return Err(ApiError(400, "Number of seats exceeds event capacity"));
    }
    var created := NewSeats(seatsData, freshIds, eventId, now);
    db.seats := db.seats + created;
    r := Ok(created);
  }

  // ---------------------------------------------------------------------
  // Read queries (seat.service.js:50-83, 195-201)

  /** The fields `getAvailableSeats` reports. */
  datatype SeatSummary = SeatSummary(id: Id, seatNumber: string, row: string, column: int, price: nat)

  /** The fields `getSeatsByEvent` reports. */
  datatype SeatListing = SeatListing(id: Id, seatNumber: string, row: string, column: int,
                                     status: SeatStatus, price: nat)

  function Summary(s: Seat): SeatSummary
  {
    SeatSummary(s.id, s.seatNumber, s.row, s.column, s.price)
  }

  function Listing(s: Seat): SeatListing
  {
    SeatListing(s.id, s.seatNumber, s.row, s.column, s.status, s.price)
  }

  /** The AVAILABLE seats of an event, in store order, as summaries. */
  function GetAvailableSeats(db: Store, eventId: Id): (r: Result<seq<SeatSummary>>)
    reads db
    ensures FindEvent(db.events, eventId).None? <==> r == Err(ApiError(404, "Event not found"))
    ensures FindEvent(db.events, eventId).Some? ==> r.Ok?
    ensures r.Ok? ==> forall v :: v in r.value ==>
      exists s :: s in db.seats && s.eventId == eventId && s.status == Available && v == Summary(s)
    ensures r.Ok? ==> forall s :: s in db.seats && s.eventId == eventId && s.status == Available ==>
      Summary(s) in r.value
  {
    if FindEvent(db.events, eventId).None? then Err(ApiError(404, "Event not found"))
    else
      var chosen := Filter(db.seats, (s: Seat) => s.eventId == eventId && s.status == Available);
      var out := seq(|chosen|, i requires 0 <= i < |chosen| => Summary(chosen[i]));
      assert forall s :: s in db.seats && s.eventId == eventId && s.status == Available ==> Summary(s) in out by {
        forall s | s in db.seats && s.eventId == eventId && s.status == Available ensures Summary(s) in out {
          var i :| 0 <= i < |db.seats| && db.seats[i] == s;
          var j :| 0 <= j < |chosen| && chosen[j] == s;
          assert out[j] == Summary(s);
        }
      }
      Ok(out)
  }

  /** Every seat of an event, in store order, with its status. */
  function GetSeatsByEvent(db: Store, eventId: Id): (r: Result<seq<SeatListing>>)
    reads db
    ensures FindEvent(db.events, eventId).None? <==> r == Err(ApiError(404, "Event not found"))
    ensures FindEvent(db.events, eventId).Some? ==> r.Ok?
    ensures r.Ok? ==> forall v :: v in r.value ==>
      exists s :: s in db.seats && s.eventId == eventId && v == Listing(s)
    ensures r.Ok? ==> forall s :: s in db.seats && s.eventId == eventId ==> Listing(s) in r.value
  {
    if FindEvent(db.events, eventId).None? then Err(ApiError(404, "Event not found"))
    else
      var chosen := Filter(db.seats, (s: Seat) => s.eventId == eventId);
      var out := seq(|chosen|, i requires 0 <= i < |chosen| => Listing(chosen[i]));
      assert forall s :: s in db.seats && s.eventId == eventId ==> Listing(s) in out by {
        forall s | s in db.seats && s.eventId == eventId ensures Listing(s) in out {
          var j :| 0 <= j < |chosen| && chosen[j] == s;
          assert out[j] == Listing(s);
        }
      }
      Ok(out)
  }

  /** The seat record with that identifier. */
  function GetSeatById(db: Store, seatId: Id): (r: Result<Seat>)
    reads db
    ensures r.Ok? ==> r.value in db.seats && r.value.id == seatId
    ensures r.Err? <==> forall s :: s in db.seats ==> s.id != seatId
    ensures r.Err? ==> r.error == ApiError(404, "Seat not found")
  {
    match FindSeat(db.seats, seatId)
    case None => Err(ApiError(404, "Seat not found"))
    case Some(k) => Ok(db.seats[k])
  }

  // ---------------------------------------------------------------------
  // lockSeats (seat.service.js:85-122)

  /** No requested seat is in a state other than AVAILABLE. */
  predicate AllRequestedAvailable(seats: seq<Seat>, eventId: Id, seatIds: seq<Id>)
  {
    forall i :: 0 <= i < |seats| && Requested(seats[i], eventId, seatIds) ==> seats[i].status == Available
  }

  /** Every requested seat before position `upTo` locked by `userId` until
      `until`; the other seats as they were. */
  function LockRequested(seats: seq<Seat>, eventId: Id, seatIds: seq<Id>, userId: Id,
                         until: int, upTo: int): seq<Seat>
  {
    seq(|seats|, i requires 0 <= i < |seats| =>
      if i < upTo && Requested(seats[i], eventId, seatIds) then Lock(seats[i], userId, until) else seats[i])
  }

  /** All checks of `lockSeats` pass. */
  predicate CanLock(seats: seq<Seat>, events: seq<Event>, eventId: Id, seatIds: seq<Id>)
  {
    && |seatIds| > 0
    && FindEvent(events, eventId).Some?
    && CountRequested(seats, eventId, seatIds) == |seatIds|
    && AllRequestedAvailable(seats, eventId, seatIds)
  }

  datatype LockResult = LockResult(lockedSeats: seq<Id>, lockedUntil: int)

  /** Locks the requested seats for `userId`, all or none. */
  method LockSeats(db: Store, eventId: Id, seatIds: seq<Id>, userId: Id, now: int)
    returns (r: Result<LockResult>)
    requires db.Valid()
    modifies db
    ensures db.Valid()
    ensures db.users == old(db.users) && db.events == old(db.events)
    ensures db.bookings == old(db.bookings) && db.payments == old(db.payments)
    ensures |seatIds| == 0 ==> r == Err(ApiError(400, "Seat IDs are required"))
    ensures |seatIds| > 0 && FindEvent(db.events, eventId).None? ==>
      r == Err(ApiError(404, "Event not found"))
    ensures (|seatIds| > 0 && FindEvent(db.events, eventId).Some?
      && CountRequested(old(db.seats), eventId, seatIds) != |seatIds|) ==>
      r == Err(ApiError(400, "Some seats not found"))
    ensures (|seatIds| > 0 && FindEvent(db.events, eventId).Some?
      && CountRequested(old(db.seats), eventId, seatIds) == |seatIds|
      && !AllRequestedAvailable(old(db.seats), eventId, seatIds)) ==>
      r == Err(ApiError(400, "Some seats are not available"))
    ensures r.Ok? <==> CanLock(old(db.seats), db.events, eventId, seatIds)
    ensures r.Err? ==> db.seats == old(db.seats)
    ensures r.Ok? ==> r.value == LockResult(seatIds, now + SEAT_LOCK_EXPIRY)
    ensures r.Ok? ==>
      db.seats == LockRequested(old(db.seats), eventId, seatIds, userId, now + SEAT_LOCK_EXPIRY, |old(db.seats)|)
  {
    if |seatIds| == 0 {
      return Err(ApiError(400, "Seat IDs are required"));
    }
    if FindEvent(db.events, eventId).None? {
      return Err(ApiError(404, "Event not found"));
    }
    if CountRequested(db.seats, eventId, seatIds) != |seatIds| {
      return Err(ApiError(400, "Some seats not found"));
    }
    if !AllRequestedAvailable(db.seats, eventId, seatIds) {
      return Err(ApiError(400, "Some seats are not available"));
    }
    var lockedUntil := now + SEAT_LOCK_EXPIRY;
    ghost var s0 := db.seats;
    var i := 0;
    while i < |db.seats|
      invariant 0 <= i <= |s0| == |db.seats|
      invariant forall k :: 0 <= k < i ==>
        db.seats[k] == if Requested(s0[k], eventId, seatIds) then Lock(s0[k], userId, lockedUntil) else s0[k]
      invariant forall k :: i <= k < |s0| ==> db.seats[k] == s0[k]
      invariant db.users == old(db.users) && db.events == old(db.events)
      invariant db.bookings == old(db.bookings) && db.payments == old(db.payments)
    {
      if Requested(db.seats[i], eventId, seatIds) {
        db.seats := db.seats[i := Lock(db.seats[i], userId, lockedUntil)];
      }
      i := i + 1;
    }
    assert db.seats == LockRequested(s0, eventId, seatIds, userId, lockedUntil, |s0|);
    LockRequestedKeepsInvariant(s0, eventId, seatIds, userId, lockedUntil, |s0|);
    r := Ok(LockResult(seatIds, lockedUntil));
  }

  /** Locking seats that are AVAILABLE keeps identifiers unique and every
      seat consistent. */
  lemma LockRequestedKeepsInvariant(seats: seq<Seat>, eventId: Id, seatIds: seq<Id>, userId: Id,
                                    until: int, upTo: int)
    requires UniqueSeatIds(seats) && AllConsistent(seats)
    requires forall i :: 0 <= i < |seats| && i < upTo && Requested(seats[i], eventId, seatIds) ==>
      seats[i].status == Available
    ensures var after := LockRequested(seats, eventId, seatIds, userId, until, upTo);
      UniqueSeatIds(after) && AllConsistent(after)
  {
  }

  /** After a successful `lockSeats`, every requested identifier names a
      seat of the event that is LOCKED by `userId` until `now + 600000`;
      every other seat is as it was. */
  lemma LockSeatsLocksEveryRequested(seats: seq<Seat>, eventId: Id, seatIds: seq<Id>, userId: Id, now: int)
    requires UniqueSeatIds(seats)
    requires CountRequested(seats, eventId, seatIds) == |seatIds|
    ensures var after := LockRequested(seats, eventId, seatIds, userId, now + SEAT_LOCK_EXPIRY, |seats|);
      && |after| == |seats|
      && (forall id :: id in seatIds ==>
            exists i :: 0 <= i < |after| && after[i].id == id && after[i].eventId == eventId
              && after[i].status == Locked && after[i].lockedBy == Some(userId)
              && after[i].lockedUntil == Some(now + 600000))
      && (forall i :: 0 <= i < |seats| && !Requested(seats[i], eventId, seatIds) ==> after[i] == seats[i])
  {
    var after := LockRequested(seats, eventId, seatIds, userId, now + SEAT_LOCK_EXPIRY, |seats|);
    CountMatchMeansAllFound(seats, eventId, seatIds);
    forall id | id in seatIds
      ensures exists i :: (0 <= i < |after| && after[i].id == id && after[i].eventId == eventId
              && after[i].status == Locked && after[i].lockedBy == Some(userId)
              && after[i].lockedUntil == Some(now + 600000))
    {
      var i :| 0 <= i < |seats| && seats[i].id == id && seats[i].eventId == eventId;
      assert Requested(seats[i], eventId, seatIds);
      assert after[i].id == id;
    }
  }

  // ---------------------------------------------------------------------
  // unlockSeats (seat.service.js:124-150)

  /** A seat `unlockSeats` releases: requested, LOCKED, and locked by the caller. */
  predicate Unlockable(s: Seat, seatIds: seq<Id>, userId: Id)
  {
    s.id in seatIds && s.status == Locked && s.lockedBy == Some(userId)
  }

  function UnlockOwned(seats: seq<Seat>, seatIds: seq<Id>, userId: Id): seq<Seat>
  {
    seq(|seats|, i requires 0 <= i < |seats| =>
      if Unlockable(seats[i], seatIds, userId) then ReleaseLock(seats[i]) else seats[i])
  }

  function CountUnlockable(seats: seq<Seat>, seatIds: seq<Id>, userId: Id): nat
  {
    if |seats| == 0 then 0
    else CountUnlockable(seats[..|seats| - 1], seatIds, userId)
         + (if Unlockable(seats[|seats| - 1], seatIds, userId) then 1 else 0)
  }

  /** Releases the requested seats the caller holds and reports how many. */
  method UnlockSeats(db: Store, seatIds: seq<Id>, userId: Id) returns (r: Result<nat>)
    requires db.Valid()
    modifies db
    ensures db.Valid()
    ensures db.users == old(db.users) && db.events == old(db.events)
    ensures db.bookings == old(db.bookings) && db.payments == old(db.payments)
    ensures |seatIds| == 0 ==> r == Err(ApiError(400, "Seat IDs are required")) && db.seats == old(db.seats)
    ensures |seatIds| > 0 ==> r == Ok(CountUnlockable(old(db.seats), seatIds, userId))
    ensures |seatIds| > 0 ==> db.seats == UnlockOwned(old(db.seats), seatIds, userId)
  {
    if |seatIds| == 0 {
      return Err(ApiError(400, "Seat IDs are required"));
    }
    ghost var s0 := db.seats;
    var unlockedCount := 0;
    var i := 0;
    while i < |db.seats|
      invariant 0 <= i <= |s0| == |db.seats|
      invariant forall k :: 0 <= k < i ==>
        db.seats[k] == if Unlockable(s0[k], seatIds, userId) then ReleaseLock(s0[k]) else s0[k]
      invariant forall k :: i <= k < |s0| ==> db.seats[k] == s0[k]
      invariant unlockedCount == CountUnlockable(s0[..i], seatIds, userId)
      invariant db.users == old(db.users) && db.events == old(db.events)
      invariant db.bookings == old(db.bookings) && db.payments == old(db.payments)
    {
      assert s0[..i + 1][..i] == s0[..i];
      if Unlockable(db.seats[i], seatIds, userId) {
        db.seats := db.seats[i := ReleaseLock(db.seats[i])];
        unlockedCount := unlockedCount + 1;
      }
      i := i + 1;
    }
    assert s0[..i] == s0;
    assert db.seats == UnlockOwned(s0, seatIds, userId);
    UnlockKeepsInvariant(s0, seatIds, userId);
    r := Ok(unlockedCount);
  }

  /** The count `unlockSeats` reports is the number of seats it changed. */
  lemma {:induction false} UnlockCountIsChanges(seats: seq<Seat>, seatIds: seq<Id>, userId: Id)
    ensures Changed(seats, UnlockOwned(seats, seatIds, userId)) == CountUnlockable(seats, seatIds, userId)
  {
    if |seats| > 0 {
      var n := |seats| - 1;
      UnlockCountIsChanges(seats[..n], seatIds, userId);
      assert UnlockOwned(seats, seatIds, userId)[..n] == UnlockOwned(seats[..n], seatIds, userId);
    }
  }

  /** An identical second `unlockSeats` finds nothing to release, reports 0
      and changes nothing. */
  lemma {:induction false} UnlockTwice(seats: seq<Seat>, seatIds: seq<Id>, userId: Id)
    ensures CountUnlockable(UnlockOwned(seats, seatIds, userId), seatIds, userId) == 0
    ensures UnlockOwned(UnlockOwned(seats, seatIds, userId), seatIds, userId) == UnlockOwned(seats, seatIds, userId)
  {
    if |seats| > 0 {
      var n := |seats| - 1;
      UnlockTwice(seats[..n], seatIds, userId);
      assert UnlockOwned(seats, seatIds, userId)[..n] == UnlockOwned(seats[..n], seatIds, userId);
    }
  }

  lemma UnlockKeepsInvariant(seats: seq<Seat>, seatIds: seq<Id>, userId: Id)
    requires UniqueSeatIds(seats) && AllConsistent(seats)
    ensures UniqueSeatIds(UnlockOwned(seats, seatIds, userId)) && AllConsistent(UnlockOwned(seats, seatIds, userId))
  {
  }

  // ---------------------------------------------------------------------
  // bookSeats (seat.service.js:152-193)

  predicate LockedBy(s: Seat, userId: Id)
  {
    s.status == Locked && s.lockedBy == Some(userId)
  }

  /** Every requested seat is LOCKED by `userId`. */
  predicate AllRequestedLockedBy(seats: seq<Seat>, eventId: Id, seatIds: seq<Id>, userId: Id)
  {
    forall i :: 0 <= i < |seats| && Requested(seats[i], eventId, seatIds) ==> LockedBy(seats[i], userId)
  }

  function BookRequested(seats: seq<Seat>, eventId: Id, seatIds: seq<Id>, userId: Id, bookingId: Id): seq<Seat>
  {
    seq(|seats|, i requires 0 <= i < |seats| =>
      if Requested(seats[i], eventId, seatIds) then Book(seats[i], userId, bookingId) else seats[i])
  }

  /** All checks of `bookSeats` pass. */
  predicate CanBook(seats: seq<Seat>, eventId: Id, seatIds: seq<Id>, userId: Id)
  {
    && |seatIds| > 0
    && CountRequested(seats, eventId, seatIds) == |seatIds|
    && AllRequestedLockedBy(seats, eventId, seatIds, userId)
  }

  /** The events after `availableSeats` of the first event `eventId`, if
      there is one, moved by `delta`. */
  function AdjustAvailable(events: seq<Event>, eventId: Id, delta: int): seq<Event>
  {
    match FindEvent(events, eventId)
    case None => events
    case Some(k) => events[k := events[k].(availableSeats := events[k].availableSeats + delta)]
  }

  /** The `seats.forEach` of `bookSeats`: every requested seat becomes
      BOOKED in place. */
  method BookRequestedSeats(db: Store, eventId: Id, seatIds: seq<Id>, userId: Id, bookingId: Id)
    modifies db
    ensures db.seats == BookRequested(old(db.seats), eventId, seatIds, userId, bookingId)
    ensures db.users == old(db.users) && db.events == old(db.events)
    ensures db.bookings == old(db.bookings) && db.payments == old(db.payments)
  {
    ghost var s0 := db.seats;
    var i := 0;
    while i < |db.seats|
      invariant 0 <= i <= |s0| == |db.seats|
      invariant forall k :: 0 <= k < i ==>
        db.seats[k] == if Requested(s0[k], eventId, seatIds) then Book(s0[k], userId, bookingId) else s0[k]
      invariant forall k :: i <= k < |s0| ==> db.seats[k] == s0[k]
      invariant db.users == old(db.users) && db.events == old(db.events)
      invariant db.bookings == old(db.bookings) && db.payments == old(db.payments)
    {
      if Requested(db.seats[i], eventId, seatIds) {
        db.seats := db.seats[i := Book(db.seats[i], userId, bookingId)];
      }
      i := i + 1;
    }
  }

  /** Booking the requested seats keeps identifiers unique and every seat
      consistent. */
  lemma BookKeepsInvariant(seats: seq<Seat>, eventId: Id, seatIds: seq<Id>, userId: Id, bookingId: Id)
    requires UniqueSeatIds(seats) && AllConsistent(seats)
    ensures var after := BookRequested(seats, eventId, seatIds, userId, bookingId);
      UniqueSeatIds(after) && AllConsistent(after)
  {
    var after := BookRequested(seats, eventId, seatIds, userId, bookingId);
    assert forall i :: 0 <= i < |seats| ==> after[i].id == seats[i].id;
  }

  /** `event.availableSeats += delta` on the first event `eventId`, if any. */
  method AdjustEventAvailable(db: Store, eventId: Id, delta: int)
    requires db.Valid()
    modifies db
    ensures db.Valid()
    ensures db.events == AdjustAvailable(old(db.events), eventId, delta)
    ensures db.users == old(db.users) && db.seats == old(db.seats)
    ensures db.bookings == old(db.bookings) && db.payments == old(db.payments)
  {
    var k := FindEvent(db.events, eventId);
    if k.Some? {
      var e := db.events[k.value].(availableSeats := db.events[k.value].availableSeats + delta);
      EventIdsKept(db.events, k.value, e);
      db.events := db.events[k.value := e];
    }
  }

  /** Promotes the caller's LOCKED seats to BOOKED, all or none, and lowers
      the event's `availableSeats` by the number of requested seats. */
  method BookSeats(db: Store, eventId: Id, seatIds: seq<Id>, userId: Id, bookingId: Id)
    returns (r: Result<nat>)
    requires db.Valid()
    modifies db
    ensures db.Valid()
    ensures db.users == old(db.users) && db.bookings == old(db.bookings) && db.payments == old(db.payments)
    ensures |seatIds| == 0 ==> r == Err(ApiError(400, "Seat IDs are required"))
    ensures |seatIds| > 0 && CountRequested(old(db.seats), eventId, seatIds) != |seatIds| ==>
      r == Err(ApiError(400, "Some seats not found"))
    ensures (|seatIds| > 0 && CountRequested(old(db.seats), eventId, seatIds) == |seatIds|
      && !AllRequestedLockedBy(old(db.seats), eventId, seatIds, userId)) ==>
      r == Err(ApiError(400, "Some seats are not locked by you"))
    ensures r.Ok? <==> CanBook(old(db.seats), eventId, seatIds, userId)
    ensures r.Err? ==> db.seats == old(db.seats) && db.events == old(db.events)
    ensures r.Ok? ==> r.value == |seatIds|
    ensures r.Ok? ==> db.seats == BookRequested(old(db.seats), eventId, seatIds, userId, bookingId)
    ensures r.Ok? ==> db.events == AdjustAvailable(old(db.events), eventId, -|seatIds|)
  {
    if |seatIds| == 0 {
      return Err(ApiError(400, "Seat IDs are required"));
    }
    if CountRequested(db.seats, eventId, seatIds) != |seatIds| {
      return Err(ApiError(400, "Some seats not found"));
    }
    if !AllRequestedLockedBy(db.seats, eventId, seatIds, userId) {
      return Err(ApiError(400, "Some seats are not locked by you"));
    }
    BookKeepsInvariant(db.seats, eventId, seatIds, userId, bookingId);
    BookRequestedSeats(db, eventId, seatIds, userId, bookingId);
    AdjustEventAvailable(db, eventId, -|seatIds|);
    r := Ok(|seatIds|);
  }

  /** After a successful `bookSeats`, every requested identifier names a
      BOOKED seat carrying `bookedBy` and `bookingId`, with its lock fields
      cleared; every other seat is as it was. */
  lemma BookSeatsBooksEveryRequested(seats: seq<Seat>, eventId: Id, seatIds: seq<Id>, userId: Id, bookingId: Id)
    requires UniqueSeatIds(seats)
    requires CountRequested(seats, eventId, seatIds) == |seatIds|
    ensures var after := BookRequested(seats, eventId, seatIds, userId, bookingId);
      && |after| == |seats|
      && (forall id :: id in seatIds ==>
            exists i :: 0 <= i < |after| && after[i].id == id && after[i].eventId == eventId
              && after[i].status == Booked && after[i].bookedBy == Some(userId)
              && after[i].bookingId == Some(bookingId)
              && after[i].lockedBy.None? && after[i].lockedUntil.None?)
      && (forall i :: 0 <= i < |seats| && !Requested(seats[i], eventId, seatIds) ==> after[i] == seats[i])
  {
    var after := BookRequested(seats, eventId, seatIds, userId, bookingId);
    CountMatchMeansAllFound(seats, eventId, seatIds);
    forall id | id in seatIds
      ensures exists i :: (0 <= i < |after| && after[i].id == id && after[i].eventId == eventId
              && after[i].status == Booked && after[i].bookedBy == Some(userId)
              && after[i].bookingId == Some(bookingId)
              && after[i].lockedBy.None? && after[i].lockedUntil.None?)
    {
      var i :| 0 <= i < |seats| && seats[i].id == id && seats[i].eventId == eventId;
      assert Requested(seats[i], eventId, seatIds);
      assert after[i].id == id;
    }
  }

  // ---------------------------------------------------------------------
  // expireLockedSeats (seat.service.js:203-227)

  /** A LOCKED seat whose `lockedUntil` is set and lies before `now`. */
  predicate Lapsed(s: Seat, now: int)
  {
    s.status == Locked && s.lockedUntil.Some? && s.lockedUntil.value < now
  }

  function ExpireLapsed(seats: seq<Seat>, now: int): seq<Seat>
  {
    seq(|seats|, i requires 0 <= i < |seats| => if Lapsed(seats[i], now) then ReleaseLock(seats[i]) else seats[i])
  }

  function CountLapsed(seats: seq<Seat>, now: int): nat
  {
    if |seats| == 0 then 0
    else CountLapsed(seats[..|seats| - 1], now) + (if Lapsed(seats[|seats| - 1], now) then 1 else 0)
  }

  /** Releases every lapsed lock and reports how many it released. */
  method ExpireLockedSeats(db: Store, now: int) returns (expiredCount: nat)
    requires db.Valid()
    modifies db
    ensures db.Valid()
    ensures db.users == old(db.users) && db.events == old(db.events)
    ensures db.bookings == old(db.bookings) && db.payments == old(db.payments)
    ensures db.seats == ExpireLapsed(old(db.seats), now)
    ensures expiredCount == CountLapsed(old(db.seats), now)
  {
    ghost var s0 := db.seats;
    expiredCount := 0;
    var i := 0;
    while i < |db.seats|
      invariant 0 <= i <= |s0| == |db.seats|
      invariant forall k :: 0 <= k < i ==>
        db.seats[k] == if Lapsed(s0[k], now) then ReleaseLock(s0[k]) else s0[k]
      invariant forall k :: i <= k < |s0| ==> db.seats[k] == s0[k]
      invariant expiredCount == CountLapsed(s0[..i], now)
      invariant db.users == old(db.users) && db.events == old(db.events)
      invariant db.bookings == old(db.bookings) && db.payments == old(db.payments)
    {
      assert s0[..i + 1][..i] == s0[..i];
      if Lapsed(db.seats[i], now) {
        db.seats := db.seats[i := ReleaseLock(db.seats[i])];
        expiredCount := expiredCount + 1;
      }
      i := i + 1;
    }
    assert s0[..i] == s0;
    assert db.seats == ExpireLapsed(s0, now);
    ExpireKeepsInvariant(s0, now);
  }

  lemma ExpireKeepsInvariant(seats: seq<Seat>, now: int)
    requires UniqueSeatIds(seats) && AllConsistent(seats)
    ensures UniqueSeatIds(ExpireLapsed(seats, now)) && AllConsistent(ExpireLapsed(seats, now))
  {
  }

  /** The count `expireLockedSeats` reports is the number of seats it changed,
      each of them a lapsed lock now AVAILABLE; AVAILABLE and BOOKED seats
      are untouched. */
  lemma {:induction false} ExpireCountIsChanges(seats: seq<Seat>, now: int)
    ensures Changed(seats, ExpireLapsed(seats, now)) == CountLapsed(seats, now)
    ensures forall i :: 0 <= i < |seats| && seats[i].status != Locked ==> ExpireLapsed(seats, now)[i] == seats[i]
  {
    if |seats| > 0 {
      var n := |seats| - 1;
      ExpireCountIsChanges(seats[..n], now);
      assert ExpireLapsed(seats, now)[..n] == ExpireLapsed(seats[..n], now);
    }
  }

  /** An immediate second sweep at the same `now` releases nothing. */
  lemma {:induction false} ExpireTwice(seats: seq<Seat>, now: int)
    ensures CountLapsed(ExpireLapsed(seats, now), now) == 0
    ensures ExpireLapsed(ExpireLapsed(seats, now), now) == ExpireLapsed(seats, now)
  {
    if |seats| > 0 {
      var n := |seats| - 1;
      ExpireTwice(seats[..n], now);
      assert ExpireLapsed(seats, now)[..n] == ExpireLapsed(seats[..n], now);
    }
  }
}
