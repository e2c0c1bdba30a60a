# Ticketing engine model

This project models the in-memory core of a ticket booking backend:

- **Store.** One shared store holds the users, events, seats, bookings and payments.
- **Seats.** A seat is AVAILABLE, LOCKED (a soft hold with an owner and an expiry time) or BOOKED.
- **Bookings.**
  - A booking starts PENDING and holds its seats locked for ten minutes.
  - It must be confirmed within thirty minutes, which books its seats.
  - It can be cancelled, which releases its seats.
  - A PENDING booking past its expiry time is expired by `expireBookings`. That service function, like `expireLockedSeats`, is defined but nothing in the code invokes it.
- **Payments.** A payment is initiated for a booking, processed by a gateway, and may be refunded.
- **Events.** Admins create, update and soft-delete events. Anyone can list and search the active ones.

The store is the class `Db.Store`, with one sequence per collection. `Valid()` says three things:

- identifiers are unique within each collection;
- every seat obeys the per-status field discipline:
  - AVAILABLE: no lock fields and no booking fields;
  - LOCKED: both lock fields and no booking fields;
  - BOOKED: both booking fields and no lock fields.
- no booking status outside `BOOKING_STATUS` spells one of its names, so a stored status string and the datatype agree.

Every state-changing operation requires `Valid()` and preserves it. A stricter property, `AllWritten`, says every booking status is one the services write: a `BOOKING_STATUS` value, or the payment service's lower-case "completed" or "refunded". It is not part of `Valid()`, because a store loaded from disk may hold other statuses. Every operation that changes bookings keeps `AllWritten` if it held before, and the others leave the bookings unchanged.

**How the services are modelled.** Each service is a module of methods over the store. The methods follow the services' own control flow:

- every `forEach` that mutates records is a `while` loop;
- each loop's invariant ties the store to a pointwise specification function of the old state;
- read-only filters, finds and sorts are functions.

**Quirks the model copies from the code. Each departs from what the constants and error messages suggest was intended:**

- `createBooking` locks seats one at a time and can stop half-way. `CreateBookingLocksPartially` exhibits this.
- `initiatePayment` accepts only a booking whose status is the literal `"confirmed"`. No status written by the services is that string. On a store whose statuses the services all wrote (`AllWritten`), it therefore never records a payment (`InitiateNeverAllowed`). A store loaded with a lower-case "confirmed" booking is valid, and there the payment is recorded (`InitiateAllowedOnLoaded`).
- `processPayment` and `refundPayment` assign `PAYMENT_STATUS.COMPLETED` and `PAYMENT_STATUS.REFUNDED`. Neither is defined, so both statuses are JavaScript's `undefined`. The model has the single status `PaymentUndefined` for both, with these consequences:
  - a refunded payment still counts as completed in the statistics;
  - a refunded payment can be refunded again (`RefundRepeatable`);
  - the lower-case booking statuses `"completed"` and `"refunded"` appear alongside the upper-case `BOOKING_STATUS` values.
- `processPayment` and `refundPayment` set the status of the payment's booking to `"completed"` or `"refunded"` without looking at its current status. This holds for a CANCELLED or EXPIRED booking too, so the booking lifecycle of `BookingService.Transition` holds only for the booking service's own calls.
- `createSeats` checks each batch against `totalSeats`, not the running total. `availableSeats` is a plain counter that nothing keeps non-negative.

**External inputs become parameters:**

- the clock (`now`);
- generated identifiers and references (`freshIds`, `bookingId`, `bookingReference`, `paymentId`, `eventId`, `transactionId`);
- the gateway's random outcome (`success`).

The generated identifiers are required to be fresh.

## Model

| member | source | states |
|---|---|---|
| Db.Store.constructor | backend/src/config/db.js:37-43 | The store starts with every collection empty and valid. |
| Db.FindEvent | backend/src/services/event.service.js:66 | `find` by identifier: the first position holding that id, or none when no record has it. |
| Db.FindSeat | backend/src/services/seat.service.js:196 | The first seat with the identifier, or none when no seat has it. |
| Db.FindBooking | backend/src/services/booking.service.js:76 | The first booking with the identifier, or none when no booking has it. |
| Db.FindPayment | backend/src/services/payment.service.js:71 | The first payment with the identifier, or none when no payment has it. |
| Db.FindUser | backend/src/services/booking.service.js:226 | The first user with the identifier, or none when no user has it. |
| Seqs.Lower | backend/src/services/event.service.js:144 | `toLowerCase` on ASCII: same length, each letter mapped, no upper-case letter left. |
| Seqs.SortBySorted | backend/src/services/event.service.js:94 | The stable sort leaves keys ascending and is a permutation of its input. |
| Seqs.SortDescBy | backend/src/services/booking.service.js:206 | The `createdAt`-descending sort is a permutation with keys non-increasing. |
| Seqs.SortDescByMembers | backend/src/services/booking.service.js:206 | An element is in the descending sort exactly when it is in the input. |
| Seqs.FilterMembers | backend/src/services/event.service.js:74 | `filter` keeps exactly the elements of the input that satisfy the predicate. |
| Seqs.ElementsCard | backend/src/services/seat.service.js:96-97 | The number of distinct identifiers is at most the length, with equality exactly when none repeats. |
| SeatService.CountRequestedIsCard | backend/src/services/seat.service.js:96-97 | With unique seat ids, the length of the matched-seat filter is the number of distinct requested ids found. |
| SeatService.CountMatchMeansAllFound | backend/src/services/seat.service.js:96-99 | Passing the count check means the ids are distinct and each names a seat of the event. |
| SeatService.AllFoundMeansCountMatch | backend/src/services/seat.service.js:96-99 | Distinct ids that all name seats of the event pass the count check. |
| SeatService.RequestedCountExact | backend/src/services/seat.service.js:96-99 | The count check passes if and only if the ids are distinct and all name seats of the event. |
| SeatService.CreateSeats | backend/src/services/seat.service.js:11-48 | 404/403/400/400 in source order with no change. On success the new seats are appended, AVAILABLE, with every lock and booking field null; existing seats are untouched. |
| SeatService.GetAvailableSeats | backend/src/services/seat.service.js:50-65 | 404 exactly for a missing event. Otherwise it succeeds, and the result holds exactly the summaries of the event's AVAILABLE seats. |
| SeatService.GetSeatsByEvent | backend/src/services/seat.service.js:67-83 | 404 exactly for a missing event. Otherwise it succeeds, and the result holds exactly the listings of the event's seats. |
| SeatService.GetSeatById | backend/src/services/seat.service.js:195-201 | The seat with that id, or 404 exactly when there is none. |
| SeatService.LockSeats | backend/src/services/seat.service.js:85-122 | Fails and changes nothing on empty ids, a missing event, a count mismatch or a requested seat that is not AVAILABLE. It succeeds exactly when all checks pass, locking every requested seat until `now + SEAT_LOCK_EXPIRY`. |
| SeatService.LockRequestedKeepsInvariant | backend/src/services/seat.service.js:108-113 | Locking AVAILABLE seats keeps ids unique and every seat consistent. |
| SeatService.LockSeatsLocksEveryRequested | backend/src/services/seat.service.js:107-113 | After a successful lock, every requested id names a LOCKED seat of the event held by the caller until `now + 600000`; other seats are unchanged. |
| SeatService.UnlockSeats | backend/src/services/seat.service.js:124-150 | 400 on empty ids. Otherwise it releases exactly the requested seats that are LOCKED by the caller, and returns that count. |
| SeatService.UnlockCountIsChanges | backend/src/services/seat.service.js:129-141 | The returned count equals the number of seats that changed. |
| SeatService.UnlockTwice | backend/src/services/seat.service.js:129-141 | A second identical unlock releases nothing and changes nothing. |
| SeatService.UnlockKeepsInvariant | backend/src/services/seat.service.js:136-139 | Unlocking keeps ids unique and every seat consistent. |
| SeatService.BookSeats | backend/src/services/seat.service.js:152-193 | All or nothing. It fails with no change on empty ids, a count mismatch, or a seat not LOCKED by the caller. On success every requested seat is BOOKED and `availableSeats` drops by `seatIds.length`. |
| SeatService.BookRequestedSeats | backend/src/services/seat.service.js:171-178 | The booking loop turns exactly the requested seats into BOOKED seats for the caller and booking, in place, and leaves every other collection alone. |
| SeatService.AdjustEventAvailable | backend/src/services/seat.service.js:181-184 | Only the first event with the id has its `availableSeats` moved by the delta. A missing event changes nothing. The store stays valid. |
| SeatService.BookSeatsBooksEveryRequested | backend/src/services/seat.service.js:171-178 | Every requested id names a BOOKED seat with `bookedBy` and `bookingId` set and its lock fields null; other seats are unchanged. |
| SeatService.ExpireLockedSeats | backend/src/services/seat.service.js:203-227 | Releases exactly the LOCKED seats whose set `lockedUntil` is before `now`, and returns their number. |
| SeatService.ExpireKeepsInvariant | backend/src/services/seat.service.js:214-217 | Expiring locks keeps ids unique and every seat consistent. |
| SeatService.ExpireCountIsChanges | backend/src/services/seat.service.js:208-220 | The count equals the number of changed seats; AVAILABLE and BOOKED seats are untouched. |
| SeatService.ExpireTwice | backend/src/services/seat.service.js:208-220 | A rerun at the same `now` expires nothing and changes nothing. |
| BookingService.TransitionProperties | backend/src/services/booking.service.js:85-91 | Under this service's transitions, CANCELLED and EXPIRED are terminal, nothing returns to PENDING, and CONFIRMED and EXPIRED never follow one another. |
| BookingService.TransitionTrace | backend/src/services/booking.service.js:120-126 | Over any sequence of the booking service's calls, the last status is reachable from the first in one transition, so CANCELLED and EXPIRED stay terminal under them. The payment service can still move a booking out of this lifecycle (see the quirks above). |
| BookingService.ReleaseListedSeats | backend/src/services/booking.service.js:130-155 | The find-and-release loop over a booking's seat ids releases exactly the listed seats in the given status, keeping the store valid. |
| BookingService.ReleaseListedCompose | backend/src/services/booking.service.js:242-250 | Releasing one id list and then another equals releasing their concatenation. |
| BookingService.ReleaseOneByFind | backend/src/services/booking.service.js:131-132 | With unique ids, releasing one listed id is updating the seat that `find` returns. |
| BookingService.ReleaseListedReleasesAll | backend/src/services/booking.service.js:131-137 | Afterwards no listed seat is left in the released status, and each listed seat that was in it is AVAILABLE. |
| BookingService.ReleaseListedKeepsInvariant | backend/src/services/booking.service.js:133-137 | Releasing BOOKED or LOCKED seats keeps ids unique and every seat consistent. |
| BookingService.FirstUnavailable | backend/src/services/booking.service.js:50-53 | The first requested seat in store order that is not AVAILABLE, with all earlier requested seats AVAILABLE; none exactly when every requested seat is AVAILABLE. |
| BookingService.CreateBooking | backend/src/services/booking.service.js:12-73 | 400/404/400 with no change on empty ids, a missing event or a count mismatch. At the first held seat: an error, no booking appended, and the earlier requested seats stay LOCKED. Otherwise the request appends one PENDING booking priced at the sum of the seat prices, expiring at `now + 1800000`, with every requested seat LOCKED until `now + 600000`. |
| BookingService.LockUntilUnavailable | backend/src/services/booking.service.js:50-58 | The locking loop stops exactly at the first requested seat that is not AVAILABLE. The locks taken before that seat stay in place; with no such seat, every requested seat is LOCKED. |
| BookingService.CreateBookingLocksEveryRequested | backend/src/services/booking.service.js:48-58 | After success every requested id names a seat LOCKED by the caller until `now + 600000`. |
| BookingService.CreateBookingLocksPartially | backend/src/services/booking.service.js:50-58 | A free seat ahead of a held one makes the request fail, yet the free seat is left LOCKED by the caller. |
| BookingService.ConfirmBooking | backend/src/services/booking.service.js:75-108 | Fails with no change on a missing booking, another owner, a status other than PENDING (echoing the status), or `now > expiryTime`. If seat booking fails, it stays PENDING and reports the `bookSeats` error: "Seat IDs are required" for no seats, "Some seats not found" on a count mismatch, "Some seats are not locked by you" otherwise. It succeeds exactly when every check and `bookSeats` pass; the booking becomes CONFIRMED and the seats BOOKED. |
| BookingService.CancelBooking | backend/src/services/booking.service.js:110-171 | Rejects a missing booking, another owner, CANCELLED and EXPIRED; otherwise the booking becomes CANCELLED. From CONFIRMED its BOOKED seats are released and `availableSeats` rises by `seats.length`. From PENDING its LOCKED seats are released without an owner check. |
| BookingService.ReleaseCancelled | backend/src/services/booking.service.js:128-155 | From CONFIRMED, the listed BOOKED seats are released and `availableSeats` rises by `seats.length`. From PENDING, the listed LOCKED seats are released. From any other status nothing changes. |
| BookingService.ExpireBookings | backend/src/services/booking.service.js:233-263 | Exactly the PENDING bookings with `expiryTime < now` become EXPIRED and their LOCKED seats are released; the result is their count. |
| BookingService.ExpireAt | backend/src/services/booking.service.js:240-255 | One lapsed booking becomes EXPIRED and its LOCKED seats are released. Every other booking is unchanged. |
| BookingService.ExpireDueWritten | backend/src/services/booking.service.js:253 | The sweep writes only EXPIRED, so a store whose statuses the services all wrote stays so. |
| BookingService.ExpireDueSteps | backend/src/services/booking.service.js:236-253 | The sweep keeps every booking's id and moves its status along an allowed transition. |
| BookingService.ExpireBookingsCountIsChanges | backend/src/services/booking.service.js:235-237 | The count equals the number of bookings that changed. |
| BookingService.ExpireBookingsTwice | backend/src/services/booking.service.js:235-262 | A rerun at the same `now` expires nothing, releases nothing and changes nothing. |
| BookingService.ExpiryBoundary | backend/src/services/booking.service.js:86-88 | For a PENDING booking, confirm rejects it as expired exactly when the sweep would expire it. At `now == expiryTime` it does neither. |
| BookingService.LookupSeats | backend/src/services/booking.service.js:201 | A booking's seat ids mapped through `find`, position by position. Each position holds a stored seat with that id, and it is empty exactly when no stored seat has the id. |
| BookingService.FoundSeats | backend/src/services/booking.service.js:187 | `filter((s) => s)`: the found seats, one per found entry, in the order of the entries (wrapping them again gives exactly the filtered entries). |
| BookingService.GetBookingById | backend/src/services/booking.service.js:173-191 | 404 exactly when the id is absent, 403 for another owner. It succeeds exactly when the booking is found and the caller owns it. On success the caller's booking with its event, plus exactly the seats listed and present, one per listed id found, in the order `booking.seats` lists them. |
| BookingService.BookingSeats | backend/src/services/booking.service.js:184-189 | Every seat returned is a stored seat that the booking lists, and every stored seat the booking lists is represented. The result is the found entries of the positional lookup, in the booking's order, one per listed id found. |
| BookingService.UserBookingList | backend/src/services/booking.service.js:193-207 | Exactly the caller's bookings, filtered by status when one is given, each with its event and seats, newest first. The result is a permutation of those bookings' views in store order. |
| BookingService.EventBookingList | backend/src/services/booking.service.js:219-230 | Exactly the event's bookings that are not CANCELLED, each with its user and seats, newest first. The result is a permutation of those bookings' views in store order. |
| BookingService.GetEventBookings | backend/src/services/booking.service.js:209-231 | 404 for a missing event, 403 unless the caller created it; otherwise the event's booking list. |
| PaymentService.MarkBookingShape | backend/src/services/payment.service.js:94-98 | Setting a booking status keeps every id and event, and changes only the first booking with that id. |
| PaymentService.FindBookingByIds | backend/src/services/payment.service.js:239 | `find` by id gives the same answer on two stores with the same ids. |
| PaymentService.AnyInProgress | backend/src/services/payment.service.js:38-40 | True exactly when some payment of the booking has not FAILED. |
| PaymentService.InitiatePayment | backend/src/services/payment.service.js:19-68 | An invalid method fails first. Then 404, 403, a status other than the literal "confirmed", and an existing payment that has not FAILED each fail with no change. Otherwise one PENDING payment of `totalPrice` is appended, with null `transactionId` and `failureReason`. It succeeds exactly when every check passes, which a valid store with a "confirmed" booking allows. |
| PaymentService.InitiateNeverAllowed | backend/src/services/payment.service.js:33-35 | No booking status the services write equals "confirmed", so initiation is never allowed on a store whose statuses are all written ones (`AllWritten`). |
| PaymentService.InitiateAllowedOnLoaded | backend/src/services/payment.service.js:33-35 | A booking stored with the lower-case status "confirmed" leaves the store valid but not `AllWritten`, and its owner passes every check of `initiatePayment`. |
| PaymentService.ProcessPayment | backend/src/services/payment.service.js:70-117 | Fails with no change on a missing payment, another owner, or a status other than PENDING (echoing it). Gateway success sets status `undefined`, records the transaction id and marks the booking "completed". Failure sets FAILED with "Payment declined by provider", leaves the booking alone and reports 402. Every payment makes one of the allowed transitions (`PaymentTransition`). |
| PaymentService.MarkStoredBooking | backend/src/services/payment.service.js:94-98 | Only the first booking with the payment's booking id takes the lower-case status. A missing booking changes nothing. The store stays valid. |
| PaymentService.WritePayment | backend/src/services/payment.service.js:90-91 | One payment is overwritten in place by an allowed transition of itself. The store stays valid, and nothing else changes. |
| PaymentService.RefundEncoding | backend/src/services/payment.service.js:90 | Of the transitions that `ProcessPayment` and `RefundPayment` are proved to make, a completed payment stays completed when refunded, and none returns to PENDING. |
| PaymentService.RefundAuthorization | backend/src/services/payment.service.js:218-224 | Authorized exactly for the payer, or for the creator of the booking's event. It is a TypeError exactly when the caller is not the payer and the booking is missing. |
| PaymentService.RefundPayment | backend/src/services/payment.service.js:211-253 | 404, TypeError, 403 and 400 "Only completed payments can be refunded" with no change. It succeeds exactly when authorized and completed; the payment status stays `undefined` and the booking is marked "refunded". Every payment makes an allowed transition. |
| PaymentService.RefundRepeatable | backend/src/services/payment.service.js:230-243 | After a successful refund every check still passes, so the same refund succeeds again. |
| PaymentService.MarkBookingWritten | backend/src/services/payment.service.js:96 | Marking "completed" or "refunded" keeps every booking status unambiguous (no `BOOKING_STATUS` name outside the enumeration), and keeps `AllWritten` when it held. |
| PaymentService.GetPaymentDetails | backend/src/services/payment.service.js:119-135 | 404 exactly when the id is absent, 403 for another owner; otherwise the payment with its booking. |
| PaymentService.GetUserPayments | backend/src/services/payment.service.js:137-146 | Exactly the caller's payments, each with its booking, newest first. The result is a permutation of those payments' details in store order. |
| PaymentService.OfEvent | backend/src/services/payment.service.js:164 | True exactly when some booking of the event has the given id. |
| PaymentService.EventPaymentsOf | backend/src/services/payment.service.js:159-165 | Exactly the payments whose booking belongs to the event. |
| PaymentService.EventPaymentList | backend/src/services/payment.service.js:159-173 | Exactly the payments whose booking belongs to the event, each with its booking and payer, newest first. The result is a permutation of those payments' views in store order. |
| PaymentService.GetEventPayments | backend/src/services/payment.service.js:148-174 | 404 for a missing event, 403 unless the caller created it; otherwise the event's payment views. |
| PaymentService.GetPaymentStatistics | backend/src/services/payment.service.js:176-209 | 404, then 403 for a caller who is not the creator. Otherwise the counts and revenue over the event's payments. |
| PaymentService.StatusCountsPartition | backend/src/services/payment.service.js:195-204 | Completed, failed, pending and SUCCESS counts add up to the total. |
| PaymentService.StatisticsAddUp | backend/src/services/payment.service.js:200-204 | With no SUCCESS payment, which no service writes, completed + failed + pending equals the total. |
| PaymentService.NoSuccessCount | backend/src/services/payment.service.js:195-204 | Without SUCCESS payments the SUCCESS count is zero. |
| PaymentService.RevenueBounds | backend/src/services/payment.service.js:195-196 | The revenue is at most the completed count times the largest amount, and zero when nothing is completed. |
| EventService.CreateEvent | backend/src/services/event.service.js:10-63 | A falsy field (including `basePrice` or `totalSeats` 0) gets 400; so does `start >= end`. Otherwise one active event owned by the caller is appended, with `availableSeats == totalSeats` and the given title, description, ticket type, venue, dates and base price. |
| EventService.GetEventById | backend/src/services/event.service.js:65-71 | The event with that id, or 404 exactly when there is none. |
| EventService.ApplyUpdate | backend/src/services/event.service.js:107-114 | Every truthy field is written, and falsy fields keep their value. Id, ticket type, `totalSeats`, `availableSeats`, `createdBy` and `isActive` never change. |
| EventService.ApplyUpdateProperties | backend/src/services/event.service.js:109-114 | An update with no truthy field changes nothing, and applying the same update twice equals applying it once. |
| EventService.UpdateMayInvertDates | backend/src/services/event.service.js:113-114 | Start before end is not rechecked: a new start past the end is accepted. |
| EventService.UpdateEvent | backend/src/services/event.service.js:97-119 | 404, then 403 for a caller who is not the creator, with no change; otherwise only that event is replaced by the update applied to it. |
| EventService.DeleteEvent | backend/src/services/event.service.js:121-137 | 404, then 403 for a caller who is not the creator. Otherwise only `isActive` of that event becomes false, and the event stays in the store. |
| EventService.GetAllEvents | backend/src/services/event.service.js:73-95 | Exactly the active events matching the ticket-type, venue and search filters, by ascending start date. The result is a permutation of `FilteredEvents`. |
| EventService.FilteredEvents | backend/src/services/event.service.js:74-92 | The chained filters keep exactly the active events that match the ticket type, the venue substring and the search term. |
| EventService.ActiveMatches | backend/src/services/event.service.js:145-152 | Exactly the active events whose lower-cased title, description or venue contains the term. |
| EventService.SearchEvents | backend/src/services/event.service.js:139-154 | Empty for a blank query. Otherwise a store-order prefix of the matches, of at most 50 events: it includes every match unless it is full. |
| EventService.DeletedIsHidden | backend/src/services/event.service.js:74 | A deactivated event is not returned by `getAllEvents` or `searchEvents`. `getEventById` still returns it. |
| EventService.SeatStatusPartition | backend/src/services/event.service.js:162-164 | The AVAILABLE, BOOKED and LOCKED counts add up to the number of seats. |
| EventService.EventSeats | backend/src/services/event.service.js:162 | Exactly the seats of the event. |
| EventService.GetEventStats | backend/src/services/event.service.js:156-172 | 404 exactly when the event is missing. Otherwise the event's counters and its BOOKED and LOCKED counts, with booked + locked at most the event's seat count. |

## Left out

- Persistence: loading and saving the JSON collections (`initLocalDB`, `loadDB`, `saveCollection`). Every save is a no-op here.
- The HTTP layer, its authentication, and the frontend. They only wire the services to requests.
- Concurrency: each operation runs to completion on the store, as in the single-threaded process.
- `updatedAt` timestamps: no operation reads them.
- Separate reads of the clock within one call: a single `now` stands for all of them.
- SeatService.CreateSeats: the spread of each request object could replace the generated `_id`. Requests here carry only the seat fields, so that override is not modelled.
- PaymentService.GetPaymentStatistics: `averageTransactionAmount` is a floating-point division and is not modelled.
- Seqs.Lower: lower-cases ASCII letters only, not the full Unicode mapping of `toLowerCase`.
- Seqs.IsBlank: `trim()` removes a longer list of Unicode whitespace; the model removes ASCII whitespace, vertical tab and form feed.
- SeatService.GetAvailableSeats: states membership in both directions, not the store order of the result.
- SeatService.GetSeatsByEvent: states membership in both directions, not the store order of the result.
- BookingService.UserBookingList: states a permutation ordered by `createdAt`, not the tie order among equal `createdAt`.
- BookingService.EventBookingList: states a permutation ordered by `createdAt`, not the tie order among equal `createdAt`.
- PaymentService.GetUserPayments: states a permutation ordered by `createdAt`, not the tie order among equal `createdAt`.
- PaymentService.EventPaymentList: states a permutation ordered by `createdAt`, not the tie order among equal `createdAt`.
- EventService.GetAllEvents: states a permutation ordered by `startDateTime`, not the tie order among equal start dates.
- Seat release in `cancelBooking` and `expireBookings` is stated as one pointwise function of the old seats. That matches the find-per-id loop because seat ids are unique, which `Valid()` guarantees.
- `expireBookings` is modelled as one pass over the store's bookings that applies the expiry test, rather than a `filter` followed by a second loop. Because records are mutated in place, the effect is the same.
- The status filter of `getUserBookings` and the booking statuses compare as strings. `Valid()` forbids a stored `Other` status that spells a name of `BOOKING_STATUS`, such as a second "CANCELLED" string. Data loaded from disk is assumed to satisfy this.
- Prices, amounts and seat counts are non-negative integers. The source's acceptance of negative or fractional values (for example `totalSeats: -5`, which gives `availableSeats: -5`) is not modelled.
- Dates are integer milliseconds. An invalid date string, which would make every comparison false, is not modelled.
