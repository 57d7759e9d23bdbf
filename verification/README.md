# Hotel booking engine — a Dafny model

This project models the in-memory booking engine of a small hotel
reservation system: the room classes and their price formulas
(`progra/hotel/models/room.py`), the reservation record with its date
validation, night count, cost and half-open overlap test
(`progra/hotel/models/reservation.py`), and the `BookingManager` that keeps a
room catalogue, a dictionary of reservations keyed by id and an increasing id
counter (`progra/hotel/services/booking_manager.py`).

Encoding:

- Dates are integer day ordinals, so `(check_out - check_in).days` is a
  subtraction. Prices are exact `real`s, so 1.15 and 1.30 are exact.
- A room is an immutable datatype `Room(id, name, baseRate, category)` with
  `category` one of `Standard | Suite | Premium`. This stands for the three
  subclasses and their `calculate_price` overrides. The source's read-only
  `id`, `name` and `base_rate` properties are the datatype's fields, which
  cannot be reassigned.
- A reservation is an immutable datatype that holds the room it was booked
  for. The invariant `WellFormed` (check-in strictly before check-out) is
  what the constructor guarantees.
- The manager is a record `Manager(rooms, reservations, nextId)`. Every
  operation is a pure function. `CreateReservation` and `CancelReservation`
  return a `Step`: the new manager plus what the source returns. A raised
  `ValueError` becomes `Failure(error)`, and the manager is then unchanged.
- `Valid` is the manager invariant:
  - every stored key is at least 1 and below the counter;
  - each reservation is stored under its own id and has a non-empty stay;
  - each reservation's room is the room the catalogue resolves for that id;
  - no two stored reservations on rooms with the same id overlap.

  `RunPreservesValid` proves this holds after any sequence of creates,
  cancels and room additions.
- `list_reservations` returns the dictionary's values in insertion order.
  Every insertion uses the counter, and the counter is above every stored
  key. So insertion order is ascending key order. The model lists the stored
  keys in `[1, nextId)` in ascending order.
- `str.lower()` is modelled for the ASCII capitals and the Latin-1 capitals
  U+00C0–U+00DE, except U+00D7. For the kind filter this is enough: no other
  character lowers to a single character found in the recognised names.

Behaviour of the code that the model keeps as it is:

- Cancelling deletes the entry from the store, so a second cancel of the
  same id returns `false`.
- `list_available_rooms` does not check its range. An empty or inverted
  range overlaps nothing, so every room of the requested kind is listed
  (third `ensures` of `ListAvailableRooms`).
- Adding a room does not check its id for uniqueness. Lookup returns the
  first catalogue room with the id, and a room value added twice is listed
  twice.
- Nothing serialises concurrent callers. The model is sequential, and "no
  double booking" is proved for every sequence of operations.
- The recognised kind spellings are `estandar`, `estándar`, `standard`,
  `suite` and `premium`, in any letter case. An absent, empty or
  unrecognised kind means no filter.

## Model

| member | source | states |
|---|---|---|
| `Rooms.Price` | progra/hotel/models/room.py:42-69 | A non-positive night count costs 0 in every category. Otherwise: Standard is rate × nights, Suite is rate × nights × 1.15, Premium is rate × nights × 1.30 + 50. A non-negative rate never gives a negative price. |
| `Rooms.PriceSplitStay` | progra/hotel/models/room.py:42-69 | Splitting a stay into two positive parts costs the same for Standard and Suite. For Premium the split costs exactly one extra concierge fee, so the fee is charged once per stay, not per night. |
| `Rooms.PriceMonotoneInNights` | progra/hotel/models/room.py:42-69 | With a non-negative rate, more nights never cost less, in every category. |
| `Rooms.CategoryPriceOrder` | progra/hotel/models/room.py:39-69 | With equal rate and nights and a non-negative rate: Standard ≤ Suite ≤ Premium. |
| `Rooms.PriceExamples` | progra/hotel/models/room.py:42-69 | With rate 100 and 3 nights: Standard 300, Suite 345, Premium 440. |
| `Reservations.NewReservation` | progra/hotel/models/reservation.py:14-29 | Construction fails with an invalid-date-range error exactly when check-out ≤ check-in. Otherwise it keeps every argument, and the result has a non-empty stay. |
| `Reservations.NumNights` | progra/hotel/models/reservation.py:51-52 | The stay ends exactly that many days after it starts. The count is positive for every constructed reservation. |
| `Reservations.TotalCost` | progra/hotel/models/reservation.py:54-55 | The cost is the booked room's price for the stay's nights. It is non-negative for a non-negative rate, and at least the concierge fee for a Premium room. |
| `Reservations.Overlaps` | progra/hotel/models/reservation.py:57-61 | An empty or inverted request never overlaps. Ranges that only touch, or are disjoint, do not overlap. A proper request overlaps iff start < check-out and check-in < end. A reservation overlaps its own stay. |
| `Reservations.OverlapsIffSharedNight` | progra/hotel/models/reservation.py:57-61 | For a constructed reservation, overlap holds exactly when some night lies both in the request and in the stay (half-open reading). |
| `Reservations.OverlapsSymmetric` | progra/hotel/models/reservation.py:57-61 | Between two constructed reservations, overlap does not depend on which one is asked. |
| `BookingManager.SeedDefaultRooms` | progra/hotel/services/booking_manager.py:20-32 | A non-empty catalogue is left as it is. An empty one receives six rooms with pairwise distinct ids. |
| `BookingManager.Init` | progra/hotel/services/booking_manager.py:13-17 | A fresh manager has the seeded six rooms, no reservations, and the counter at 1. It satisfies the invariant. |
| `BookingManager.AddRoom` | progra/hotel/services/booking_manager.py:34-35 | The room is appended at the end of the catalogue. Reservations and the counter are untouched. |
| `BookingManager.GetRoomById` | progra/hotel/services/booking_manager.py:37-41 | Returns nothing iff no catalogue room has the id. Otherwise it returns a room with that id, and no earlier room has that id (first match). |
| `BookingManager.LowerChar` | progra/hotel/services/booking_manager.py:66-67 | An ASCII or Latin-1 capital maps to the character 32 code points higher. Every other character is unchanged. The result is never a capital. |
| `BookingManager.Lower` | progra/hotel/services/booking_manager.py:66-67 | The result has the same length. Each capital becomes its lower-case letter, every other character is kept, and no capital remains. |
| `BookingManager.LowerIdempotent` | progra/hotel/services/booking_manager.py:66-67 | Lower-casing a lower-cased string changes nothing. |
| `BookingManager.ParseKind` | progra/hotel/services/booking_manager.py:57-67 | An absent or empty kind selects no category. A kind whose lower-cased form is a recognised name selects that name's category. Any category selected comes from a recognised name. |
| `BookingManager.ScanRoomAvailable` | progra/hotel/services/booking_manager.py:78-82 | The early-exit scan answers true iff no reservation it visits is on that room and overlaps the range. |
| `BookingManager.AvailableAmong` | progra/hotel/services/booking_manager.py:69-75 | A room is in the result iff it is among the given rooms, matches the kind filter, and is free for the range. Each kept room appears as many times as in the input, each other room not at all. The result keeps the input order. |
| `BookingManager.ListAvailableRooms` | progra/hotel/services/booking_manager.py:46-75 | The result keeps catalogue order. It holds exactly the catalogue rooms of the requested kind that have no overlapping reservation, each as many times as it occurs in the catalogue; no kind or an unrecognised kind means no filter. For an empty range, every room of the kind is listed. |
| `BookingManager.CreateReservation` | progra/hotel/services/booking_manager.py:84-110 | Checks run in order: dates, then room lookup, then availability. The first failing check decides the error, and the manager is unchanged. Success happens exactly when all three pass. Then the reservation takes the old counter as its id, has the requested room and dates, and is the only new entry; older entries and the catalogue are kept, and the counter grows by one. |
| `BookingManager.CancelReservation` | progra/hotel/services/booking_manager.py:112-116 | Returns true iff the id was stored. In that case exactly that key is removed, and every other entry, the catalogue and the counter are kept. Otherwise the manager is unchanged. |
| `BookingManager.GetReservation` | progra/hotel/services/booking_manager.py:118-119 | Returns a value iff the id is stored, and the value is the stored reservation. |
| `BookingManager.ListReservations` | progra/hotel/services/booking_manager.py:121-122 | Every listed item is a stored reservation. Under the invariant, the list is in strictly ascending id order (insertion order). |
| `BookingManager.CalculateReservationCost` | progra/hotel/services/booking_manager.py:124-128 | Fails with reservation-not-found iff the id is not stored. Otherwise it returns the stored room's price for the stay's nights. |
| `BookingProperties.ListReservationsExact` | progra/hotel/services/booking_manager.py:121-122 | Under the invariant, the list contains every stored reservation exactly once, and each listed item is stored under its own id. |
| `BookingProperties.ScanAgreesWithStore` | progra/hotel/services/booking_manager.py:78-82 | Scanning the listed values answers exactly the store-wide availability question. |
| `BookingProperties.AvailableIffNoSharedNight` | progra/hotel/services/booking_manager.py:78-82 | A room is available for a range iff no stored reservation on it shares a night with the range. |
| `BookingProperties.AddRoomKeepsResolution` | progra/hotel/services/booking_manager.py:34-41 | Appending a room never changes which room an already-resolvable id resolves to. |
| `BookingProperties.AddRoomPreservesValid` | progra/hotel/services/booking_manager.py:34-35 | Adding a room keeps the invariant. |
| `BookingProperties.CreatePreservesValid` | progra/hotel/services/booking_manager.py:78-110 | Creating a reservation keeps the invariant, including that no two reservations on one room overlap and that every key is below the counter. |
| `BookingProperties.CancelPreservesValid` | progra/hotel/services/booking_manager.py:112-116 | Cancelling keeps the invariant. |
| `BookingProperties.RunPreservesValid` | progra/hotel/services/booking_manager.py:78-116 | Any sequence of creates, cancels and room additions from a valid manager ends valid, with no double booking. |
| `BookingProperties.ReachableValid` | progra/hotel/services/booking_manager.py:13-116 | Every manager reachable from a fresh one satisfies the invariant. |
| `BookingProperties.OverlappingSecondBookingFails` | progra/hotel/services/booking_manager.py:78-110 | After one booking succeeds, any booking of the same room for an overlapping range fails as unavailable. |
| `BookingProperties.SecondCancelFails` | progra/hotel/services/booking_manager.py:112-116 | Cancelling the same id twice: the second call returns false. |
| `BookingProperties.CancelThenRebook` | progra/hotel/services/booking_manager.py:78-116 | After a stored reservation is cancelled, booking its room for exactly the same range succeeds. The new booking has the same room and the next fresh id. |
| `BookingProperties.CreateThenGetThenCancel` | progra/hotel/services/booking_manager.py:101-119 | A new booking is found under its id. Cancelling it returns true, and afterwards it is no longer found. |
| `BookingProperties.CostOfBookingIsStable` | progra/hotel/services/booking_manager.py:124-128 | A new booking's cost is its room's price for the stay, non-negative for a non-negative rate. A later booking, or a cancel of a different id, does not change it. |
| `BookingProperties.DuplicateRoomListedTwice` | progra/hotel/services/booking_manager.py:69-75 | A free room that occurs twice in the catalogue is listed twice. |
| `BookingProperties.ParseKindIgnoresCase` | progra/hotel/services/booking_manager.py:65-67 | The kind filter gives the same answer for a string and its lower-cased form. |
| `BookingProperties.ParseKindExamples` | progra/hotel/services/booking_manager.py:57-67 | "SUITE", "Premium", "EstÁndar" and "Standard" are recognised. "deluxe", "" and no kind select nothing. |
| `BookingProperties.BookingSession` | progra/hotel/services/booking_manager.py:84-110 | From a fresh manager and for any first night d: booking room 101 for [d, d+3) gets id 1 and costs 300. Then [d+2, d+5) is refused as unavailable, [d+3, d+5) succeeds with id 2, and [d, d) is refused as an invalid range with nothing changed. |

## Left out

- `progra/hotel/services/booking_repository.py`, the ORM mappings under
  `progra/database/` and `progra/alembic/env.py`: database queries and
  schema, a library not part of this model. The repository's conflict
  query is the same test as `Reservations.Overlaps` for a non-empty range.
  It has no empty-range guard, and it ignores cancelled rows. The table's
  date check is the same as the `NewReservation` check.
- `progra/hotel/services/auth.py`: password hashing and user lookup are
  foreign calls.
- `main.py`: interactive console input and output. Date parsing is the
  standard library's.
- Floating-point rounding of prices: prices are exact reals.
- Calendar details such as month lengths and leap years: dates are day
  numbers.
- `__repr__` strings: display only.
- `list_rooms`: it returns a copy of the catalogue, modelled as
  `ListRooms` with no contract of its own.
- Concurrency: the source is single-threaded and has no lock. The model
  adds no mitigation.
- `BookingManager.LowerChar`: case mapping only covers ASCII and Latin-1
  capitals. Full Unicode `str.lower()` is not modelled because no other
  mapping changes which kind is selected.
