/** Events of backend/src/services/event.service.js: creation with field
    validation, partial updates and soft deletion by the creating admin,
    listing and searching over active events, and per-event seat counts. */
module EventService {
  import opened Common
  import opened Constants
  import opened Db
  import opened Seqs

  // ---------------------------------------------------------------------
  // createEvent (event.service.js:10-63)

  /** The fields of a creation request. A missing or falsy field is `""`,
      `None` or `0`: the service only tests their truthiness. */
  datatype EventInput = EventInput(
    title: string, description: string, ticketType: string, venue: string,
    startDateTime: Option<int>, endDateTime: Option<int>, basePrice: nat, totalSeats: nat)

  /** Every required field is truthy; in particular a `basePrice` or a
      `totalSeats` of 0 is refused. */
  predicate AllFieldsGiven(d: EventInput)
  {
    && d.title != "" && d.description != "" && d.ticketType != "" && d.venue != ""
    && d.startDateTime.Some? && d.endDateTime.Some?
    && d.basePrice != 0 && d.totalSeats != 0
  }

  /** Appends a new active event owned by `adminId`. `eventId` stands for
      the generated identifier, `now` for the creation time. */
  method CreateEvent(db: Store, d: EventInput, adminId: Id, eventId: Id, now: int) returns (r: Result<Event>)
    requires db.Valid()
    requires forall i :: 0 <= i < |db.events| ==> db.events[i].id != eventId
    modifies db
    ensures db.Valid()
    ensures db.users == old(db.users) && db.seats == old(db.seats)
    ensures db.bookings == old(db.bookings) && db.payments == old(db.payments)
    ensures !AllFieldsGiven(d) ==> r == Err(ApiError(400, "All fields are required"))
    ensures (AllFieldsGiven(d) && d.startDateTime.value >= d.endDateTime.value) ==>
      r == Err(ApiError(400, "Start date must be before end date"))
    ensures r.Ok? <==> AllFieldsGiven(d) && d.startDateTime.value < d.endDateTime.value
    ensures r.Err? ==> db.events == old(db.events)
    ensures r.Ok? ==>
      && db.events == old(db.events) + [r.value]
      && r.value.id == eventId && r.value.createdBy == adminId && r.value.isActive
      && r.value.availableSeats == r.value.totalSeats == d.totalSeats
      && r.value.startDateTime == d.startDateTime.value && r.value.endDateTime == d.endDateTime.value
      && r.value.startDateTime < r.value.endDateTime
      && r.value.title == d.title && r.value.description == d.description
      && r.value.ticketType == d.ticketType && r.value.venue == d.venue
      && r.value.basePrice == d.basePrice && r.value.createdAt == now
  {
    if !AllFieldsGiven(d) {
      return Err(ApiError(400, "All fields are required"));
    }
    if d.startDateTime.value >= d.endDateTime.value {
      return Err(ApiError(400, "Start date must be before end date"));
    }
    var event := Event(eventId, d.title, d.description, d.ticketType, d.venue,
                       d.startDateTime.value, d.endDateTime.value, d.basePrice, d.totalSeats,
                       d.totalSeats, adminId, true, now);
    db.events := db.events + [event];
    r := Ok(event);
  }

  // ---------------------------------------------------------------------
  // getEventById (event.service.js:65-71)

  function GetEventById(db: Store, eventId: Id): (r: Result<Event>)
    reads db
    ensures r.Err? <==> forall i :: 0 <= i < |db.events| ==> db.events[i].id != eventId
    ensures r.Err? ==> r.error == ApiError(404, "Event not found")
    ensures r.Ok? ==> r.value in db.events && r.value.id == eventId
  {
    match FindEvent(db.events, eventId)
    case None => Err(ApiError(404, "Event not found"))
    case Some(k) => Ok(db.events[k])
  }

  // ---------------------------------------------------------------------
  // updateEvent (event.service.js:97-119)

  /** The fields an update may carry; falsy means "keep". */
  datatype EventUpdate = EventUpdate(
    title: string, description: string, basePrice: nat, venue: string,
    startDateTime: Option<int>, endDateTime: Option<int>)

  /** The event with every truthy field of `u` written over it. */
  function ApplyUpdate(e: Event, u: EventUpdate): (r: Event)
    ensures r.id == e.id && r.ticketType == e.ticketType && r.totalSeats == e.totalSeats
    ensures r.availableSeats == e.availableSeats && r.createdBy == e.createdBy
    ensures r.isActive == e.isActive && r.createdAt == e.createdAt
    ensures |u.title| == 0 ==> r.title == e.title
    ensures |u.description| == 0 ==> r.description == e.description
    ensures u.basePrice == 0 ==> r.basePrice == e.basePrice
    ensures |u.venue| == 0 ==> r.venue == e.venue
    ensures u.startDateTime.None? ==> r.startDateTime == e.startDateTime
    ensures u.endDateTime.None? ==> r.endDateTime == e.endDateTime
    ensures |u.title| > 0 ==> r.title == u.title
    ensures |u.description| > 0 ==> r.description == u.description
    ensures u.basePrice != 0 ==> r.basePrice == u.basePrice
    ensures |u.venue| > 0 ==> r.venue == u.venue
    ensures u.startDateTime.Some? ==> r.startDateTime == u.startDateTime.value
    ensures u.endDateTime.Some? ==> r.endDateTime == u.endDateTime.value
  {
    e.(title := if |u.title| > 0 then u.title else e.title,
       description := if |u.description| > 0 then u.description else e.description,
       basePrice := if u.basePrice != 0 then u.basePrice else e.basePrice,
       venue := if |u.venue| > 0 then u.venue else e.venue,
       startDateTime := if u.startDateTime.Some? then u.startDateTime.value else e.startDateTime,
       endDateTime := if u.endDateTime.Some? then u.endDateTime.value else e.endDateTime)
  }

  /** An update with no truthy field changes nothing, and applying the same
      update twice is applying it once. */
  lemma ApplyUpdateProperties(e: Event, u: EventUpdate)
    ensures ApplyUpdate(e, EventUpdate("", "", 0, "", None, None)) == e
    ensures ApplyUpdate(ApplyUpdate(e, u), u) == ApplyUpdate(e, u)
  {
  }

  /** The order of the dates is not checked again: a new start past the end
      is accepted. */
  lemma UpdateMayInvertDates(e: Event, start: int)
    requires start >= e.endDateTime
    ensures var after := ApplyUpdate(e, EventUpdate("", "", 0, "", Some(start), None));
      after.startDateTime >= after.endDateTime
  {
  }

  /** Overwrites every truthy field of `u` on the event, for its creator. */
  method UpdateEvent(db: Store, eventId: Id, u: EventUpdate, adminId: Id) returns (r: Result<Event>)
    requires db.Valid()
    modifies db
    ensures db.Valid()
    ensures db.users == old(db.users) && db.seats == old(db.seats)
    ensures db.bookings == old(db.bookings) && db.payments == old(db.payments)
    ensures match FindEvent(old(db.events), eventId)
      case None => r == Err(ApiError(404, "Event not found")) && db.events == old(db.events)
      case Some(k) =>
        var e := old(db.events)[k];
        && (e.createdBy != adminId ==>
              r == Err(ApiError(403, "Not authorized to update this event")) && db.events == old(db.events))
        && (e.createdBy == adminId ==>
              r == Ok(ApplyUpdate(e, u)) && db.events == old(db.events)[k := ApplyUpdate(e, u)])
  {
    var k := FindEvent(db.events, eventId);
    if k.None? {
      return Err(ApiError(404, "Event not found"));
    }
    var event := db.events[k.value];
    if event.createdBy != adminId {
      return Err(ApiError(403, "Not authorized to update this event"));
    }
    if |u.title| > 0 { event := event.(title := u.title); }
    if |u.description| > 0 { event := event.(description := u.description); }
    if u.basePrice != 0 { event := event.(basePrice := u.basePrice); }
    if |u.venue| > 0 { event := event.(venue := u.venue); }
    if u.startDateTime.Some? { event := event.(startDateTime := u.startDateTime.value); }
    if u.endDateTime.Some? { event := event.(endDateTime := u.endDateTime.value); }
    assert event == ApplyUpdate(db.events[k.value], u);
    EventIdsKept(db.events, k.value, event);
    db.events := db.events[k.value := event];
    r := Ok(event);
  }

  // ---------------------------------------------------------------------
  // deleteEvent (event.service.js:121-137)

  /** Deactivates the event, for its creator; the record stays in the store. */
  method DeleteEvent(db: Store, eventId: Id, adminId: Id) returns (r: Result<string>)
    requires db.Valid()
    modifies db
    ensures db.Valid()
    ensures db.users == old(db.users) && db.seats == old(db.seats)
    ensures db.bookings == old(db.bookings) && db.payments == old(db.payments)
    ensures |db.events| == |old(db.events)|
    ensures match FindEvent(old(db.events), eventId)
      case None => r == Err(ApiError(404, "Event not found")) && db.events == old(db.events)
      case Some(k) =>
        var e := old(db.events)[k];
        && (e.createdBy != adminId ==>
              r == Err(ApiError(403, "Not authorized to delete this event")) && db.events == old(db.events))
        && (e.createdBy == adminId ==>
              r == Ok("Event deleted successfully") && db.events == old(db.events)[k := e.(isActive := false)])
  {
    var k := FindEvent(db.events, eventId);
    if k.None? {
      return Err(ApiError(404, "Event not found"));
    }
    var event := db.events[k.value];
    if event.createdBy != adminId {
      return Err(ApiError(403, "Not authorized to delete this event"));
    }
    EventIdsKept(db.events, k.value, event.(isActive := false));
    db.events := db.events[k.value := event.(isActive := false)];
    r := Ok("Event deleted successfully");
  }

  // ---------------------------------------------------------------------
  // getAllEvents (event.service.js:73-95) and searchEvents (139-154)

  /** Title, description or venue, lower-cased, contains `term`. */
  predicate MatchesTerm(e: Event, term: string)
  {
    Contains(Lower(e.title), term) || Contains(Lower(e.description), term) || Contains(Lower(e.venue), term)
  }

  /** The optional filters of `getAllEvents`; `""` means absent. */
  datatype EventFilters = EventFilters(ticketType: string, venue: string, search: string)

  predicate MatchesFilters(e: Event, f: EventFilters)
  {
    && (f.ticketType == "" || e.ticketType == f.ticketType)
    && (f.venue == "" || Contains(Lower(e.venue), Lower(f.venue)))
    && (f.search == "" || MatchesTerm(e, Lower(f.search)))
  }

  /** The active events matching the filters, in store order: the chain of
      `filter` calls of `getAllEvents`. */
  function FilteredEvents(events: seq<Event>, f: EventFilters): (r: seq<Event>)
    ensures forall e :: e in r <==> e in events && e.isActive && MatchesFilters(e, f)
  {
    var active := FilterIf(events, true, (e: Event) => e.isActive);
    var byType := FilterIf(active, f.ticketType != "", (e: Event) => e.ticketType == f.ticketType);
    var venue := Lower(f.venue);
    var byVenue := FilterIf(byType, f.venue != "", (e: Event) => Contains(Lower(e.venue), venue));
    var search := Lower(f.search);
    FilterIf(byVenue, f.search != "", (e: Event) => MatchesTerm(e, search))
  }

  /** The active events matching the filters, by ascending start date. */
  function GetAllEvents(db: Store, f: EventFilters): (r: seq<Event>)
    reads db
    ensures forall e :: e in r <==> e in db.events && e.isActive && MatchesFilters(e, f)
    ensures forall i, j :: 0 <= i < j < |r| ==> r[i].startDateTime <= r[j].startDateTime
    ensures multiset(r) == multiset(FilteredEvents(db.events, f))
  {
    var matching := FilteredEvents(db.events, f);
    var key := (e: Event) => e.startDateTime;
    SortBySorted(matching, key);
    SortByMembers(matching, key);
    SortBy(matching, key)
  }

  const SEARCH_LIMIT: nat := 50

  /** The active events matching the term, in store order. */
  function ActiveMatches(events: seq<Event>, term: string): (r: seq<Event>)
    ensures forall e :: e in r <==> e in events && e.isActive && MatchesTerm(e, term)
  {
    FilterMembers(events, (e: Event) => e.isActive && MatchesTerm(e, term));
    Filter(events, (e: Event) => e.isActive && MatchesTerm(e, term))
  }

  /** Up to fifty active events whose title, description or venue contains
      the lower-cased query; nothing for a blank query. The query is
      lower-cased but not trimmed before matching. */
  function SearchEvents(db: Store, query: string): (r: seq<Event>)
    reads db
    ensures IsBlank(query) ==> r == []
    ensures |r| <= SEARCH_LIMIT
    ensures forall e :: e in r ==> e in db.events && e.isActive && MatchesTerm(e, Lower(query))
    ensures !IsBlank(query) ==> r <= ActiveMatches(db.events, Lower(query))
    ensures forall e :: e in db.events && e.isActive && MatchesTerm(e, Lower(query)) && !IsBlank(query) ==>
      e in r || |r| == SEARCH_LIMIT
  {
    if IsBlank(query) then []
    else
      var matches := ActiveMatches(db.events, Lower(query));
      if |matches| <= SEARCH_LIMIT then matches else matches[..SEARCH_LIMIT]
  }

  /** A deactivated event is listed and found by no query. */
  lemma DeletedIsHidden(db: Store, f: EventFilters, query: string, e: Event)
    requires e in db.events && !e.isActive
    ensures e !in GetAllEvents(db, f)
    ensures e !in SearchEvents(db, query)
  {
  }

  // ---------------------------------------------------------------------
  // getEventStats (event.service.js:156-172)

  /** How many of `seats` have status `s`: `filter(...).length`. */
  function CountSeatStatus(seats: seq<Seat>, s: SeatStatus): nat
  {
    if |seats| == 0 then 0
    else CountSeatStatus(seats[..|seats| - 1], s) + (if seats[|seats| - 1].status == s then 1 else 0)
  }

  /** Every seat is in exactly one of the three statuses. */
  lemma {:induction false} SeatStatusPartition(seats: seq<Seat>)
    ensures CountSeatStatus(seats, Available) + CountSeatStatus(seats, Booked) + CountSeatStatus(seats, Locked) == |seats|
  {
    if |seats| > 0 {
      SeatStatusPartition(seats[..|seats| - 1]);
    }
  }

  /** The seats of the event, in store order. */
  function EventSeats(seats: seq<Seat>, eventId: Id): (r: seq<Seat>)
    ensures forall s :: s in r <==> s in seats && s.eventId == eventId
  {
    FilterMembers(seats, (s: Seat) => s.eventId == eventId);
    Filter(seats, (s: Seat) => s.eventId == eventId)
  }

  datatype EventStats = EventStats(totalSeats: nat, availableSeats: int, bookedSeats: nat, lockedSeats: nat)

  /** The event's capacity counters and its BOOKED and LOCKED seat counts. */
  function GetEventStats(db: Store, eventId: Id): (r: Result<EventStats>)
    reads db
    ensures r.Err? <==> FindEvent(db.events, eventId).None?
    ensures r.Err? ==> r.error == ApiError(404, "Event not found")
    ensures r.Ok? ==>
      var e := db.events[FindEvent(db.events, eventId).value];
      && r.value.totalSeats == e.totalSeats && r.value.availableSeats == e.availableSeats
      && r.value.bookedSeats == CountSeatStatus(EventSeats(db.seats, eventId), Booked)
      && r.value.lockedSeats == CountSeatStatus(EventSeats(db.seats, eventId), Locked)
    ensures r.Ok? ==> r.value.bookedSeats + r.value.lockedSeats <= |EventSeats(db.seats, eventId)|
  {
    match FindEvent(db.events, eventId)
    case None => Err(ApiError(404, "Event not found"))
    case Some(k) =>
      var eventSeats := EventSeats(db.seats, eventId);
      SeatStatusPartition(eventSeats);
      Ok(EventStats(db.events[k].totalSeats, db.events[k].availableSeats,
                    CountSeatStatus(eventSeats, Booked), CountSeatStatus(eventSeats, Locked)))
  }
}
