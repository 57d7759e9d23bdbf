/** The in-memory booking manager: a room catalogue, the stored reservations
    keyed by id, and the counter that hands out the next reservation id.
    Every operation is a pure function from the old manager to the new one
    (when it changes anything) and the caller-visible result; a failing
    operation hands back the manager it was given. */
module BookingManager {
  import opened Results
  import opened Rooms
  import opened Reservations

  datatype Manager = Manager(rooms: seq<Room>, reservations: map<int, Reservation>, nextId: int)

  /** A manager after an operation, paired with what the operation returned. */
  datatype Step<+T> = Step(manager: Manager, result: T)

  /** The id given to the first reservation of a fresh manager. */
  const FirstReservationId: int := 1

  /** The catalogue a fresh manager starts with. */
  const DefaultRooms: seq<Room> := [
    Room(101, "Est\U{e1}ndar 101", 100.0, Standard),
    Room(102, "Est\U{e1}ndar 102", 100.0, Standard),
    Room(103, "Est\U{e1}ndar 103", 110.0, Standard),
    Room(201, "Suite 201", 180.0, Suite),
    Room(202, "Suite 202", 190.0, Suite),
    Room(301, "Premium 301", 250.0, Premium)
  ]

  // ----- Invariant -----

  /** Reservation `k` is stored under its own id, below the id counter, with a
      non-empty stay, on the room the catalogue resolves for that room's id. */
  predicate StoredCorrectly(m: Manager, k: int)
    requires k in m.reservations
  {
    var r := m.reservations[k];
    && FirstReservationId <= k < m.nextId
    && r.id == k
    && WellFormed(r)
    && GetRoomById(m.rooms, r.room.id) == Some(r.room)
  }

  /** No two stored reservations on rooms with the same id overlap. */
  predicate NoDoubleBooking(reservations: map<int, Reservation>) {
    forall j, k | j in reservations && k in reservations && j != k
                  && reservations[j].room.id == reservations[k].room.id ::
      !Overlaps(reservations[j], reservations[k].checkIn, reservations[k].checkOut)
  }

  /** The invariant every reachable manager satisfies. */
  predicate Valid(m: Manager) {
    && FirstReservationId <= m.nextId
    && (forall k | k in m.reservations :: StoredCorrectly(m, k))
    && NoDoubleBooking(m.reservations)
  }

  // ----- Rooms -----

  /** Fills an empty catalogue with the default rooms; a catalogue that
      already holds rooms is left alone. */
  function SeedDefaultRooms(rooms: seq<Room>): (r: seq<Room>)
    ensures |rooms| > 0 ==> r == rooms
    ensures |rooms| == 0 ==> |r| == 6 && forall i, j | 0 <= i < j < |r| :: r[i].id != r[j].id
  {
    if |rooms| > 0 then rooms else DefaultRooms
  }

  /** A fresh manager: the seeded catalogue, no reservations, and the counter
      at the first id. */
  function Init(): (m: Manager)
    ensures Valid(m)
    ensures m.reservations == map[] && m.nextId == FirstReservationId
    ensures |m.rooms| == 6
  {
    Manager(SeedDefaultRooms([]), map[], FirstReservationId)
  }

  /** Appends a room to the catalogue. Ids are not checked for uniqueness. */
  function AddRoom(m: Manager, room: Room): (m': Manager)
    ensures m'.rooms == m.rooms + [room]
    ensures m'.reservations == m.reservations && m'.nextId == m.nextId
  {
    m.(rooms := m.rooms + [room])
  }

  /** The catalogue in its own order. */
  function ListRooms(m: Manager): seq<Room> {
    m.rooms
  }

  /** The first catalogue room with the given id, if any. */
  function GetRoomById(rooms: seq<Room>, id: int): (r: Option<Room>)
    ensures r.None? <==> forall i | 0 <= i < |rooms| :: rooms[i].id != id
    ensures r.Some? ==> exists i | 0 <= i < |rooms| :: rooms[i] == r.value && rooms[i].id == id
                                   && forall j | 0 <= j < i :: rooms[j].id != id
  {
    if |rooms| == 0 then None
    else if rooms[0].id == id then Some(rooms[0])
    else
      var r := GetRoomById(rooms[1..], id);
      if r.Some? then
        var i :| 0 <= i < |rooms| - 1 && rooms[1..][i] == r.value && rooms[1..][i].id == id
                 && forall j | 0 <= j < i :: rooms[1..][j].id != id;
        assert rooms[i + 1] == r.value;
        assert forall j | 0 <= j < i + 1 :: rooms[j].id != id by {
          forall j | 0 <= j < i + 1 ensures rooms[j].id != id {
            if j > 0 { assert rooms[j] == rooms[1..][j - 1]; }
          }
        }
        r
      else
        r
  }

  // ----- Category filter -----

  /** The capital letters whose lower-case form is 32 code points higher:
      ASCII A-Z and the Latin-1 capitals U+00C0..U+00DE, except the
      multiplication sign U+00D7. */
  predicate IsCapital(c: char) {
    'A' <= c <= 'Z' || ('\U{C0}' <= c <= '\U{DE}' && c != '\U{D7}')
  }

  /** Lower-casing of one character, as Python's `str.lower` does it for the
      ASCII and Latin-1 capital letters. */
  function LowerChar(c: char): (l: char)
    ensures IsCapital(c) ==> l as int == c as int + 32
    ensures !IsCapital(c) ==> l == c
    ensures !IsCapital(l)
  {
    if IsCapital(c) then (c as int + 32) as char else c
  }

  /** Lower-casing of a string, one character at a time. */
  function Lower(s: string): (l: string)
    ensures |l| == |s|
    ensures forall i | 0 <= i < |s| :: IsCapital(s[i]) ==> l[i] as int == s[i] as int + 32
    ensures forall i | 0 <= i < |s| :: !IsCapital(s[i]) ==> l[i] == s[i]
    ensures forall i | 0 <= i < |l| :: !IsCapital(l[i])
  {
    seq(|s|, i requires 0 <= i < |s| => LowerChar(s[i]))
  }

  /** Lower-casing an already lower-cased string changes nothing. */
  lemma LowerIdempotent(s: string)
    ensures Lower(Lower(s)) == Lower(s)
  {
  }

  /** Recognised spellings of the room kinds, in lower case. */
  const KindNames: map<string, Category> := map[
    "estandar" := Standard,
    "est\U{e1}ndar" := Standard,
    "standard" := Standard,
    "suite" := Suite,
    "premium" := Premium
  ]

  /** The category a requested room kind selects. No kind, an empty kind and
      an unrecognised kind all select nothing, which means no filter. */
  function ParseKind(kind: Option<string>): (c: Option<Category>)
    ensures kind == None || kind == Some("") ==> c == None
    ensures c.Some? ==> kind.Some? && Lower(kind.value) in KindNames && KindNames[Lower(kind.value)] == c.value
    ensures kind.Some? && Lower(kind.value) in KindNames ==> c == Some(KindNames[Lower(kind.value)])
  {
    match kind
    case None => None
    case Some(s) =>
      if s == "" then None
      else
        var l := Lower(s);
        if l in KindNames then Some(KindNames[l]) else None
  }

  predicate KindMatches(filter: Option<Category>, room: Room) {
    filter.None? || room.category == filter.value
  }

  // ----- Availability -----

  /** Reservation `r` blocks room `roomId` for the range [start, end). */
  predicate Conflicts(r: Reservation, roomId: int, start: int, end: int) {
    r.room.id == roomId && Overlaps(r, start, end)
  }

  /** No stored reservation on room `roomId` overlaps [start, end). */
  predicate IsRoomAvailable(reservations: map<int, Reservation>, roomId: int, start: int, end: int) {
    forall k | k in reservations :: !Conflicts(reservations[k], roomId, start, end)
  }

  /** The scan over the stored reservations, in the store's iteration order,
      that stops at the first one blocking the room. */
  method ScanRoomAvailable(values: seq<Reservation>, roomId: int, start: int, end: int)
    returns (available: bool)
    ensures available <==> forall i | 0 <= i < |values| :: !Conflicts(values[i], roomId, start, end)
  {
    var n := 0;
    while n < |values|
      invariant 0 <= n <= |values|
      invariant forall i | 0 <= i < n :: !Conflicts(values[i], roomId, start, end)
    {
      if Conflicts(values[n], roomId, start, end) {
        return false;
      }
      n := n + 1;
    }
    return true;
  }

  /** `a` is `b` with some elements dropped, the rest kept in order. */
  predicate Subsequence<T(==)>(a: seq<T>, b: seq<T>)
    decreases |b|
  {
    |a| == 0 || (|b| > 0 && ((a[0] == b[0] && Subsequence(a[1..], b[1..])) || Subsequence(a, b[1..])))
  }

  /** The rooms of `rooms`, in order, that pass the filter and are free. */
  function AvailableAmong(rooms: seq<Room>, reservations: map<int, Reservation>, filter: Option<Category>,
                          start: int, end: int): (r: seq<Room>)
    ensures forall x :: x in r <==> x in rooms && KindMatches(filter, x) && IsRoomAvailable(reservations, x.id, start, end)
    ensures forall x :: multiset(r)[x] ==
                        (if KindMatches(filter, x) && IsRoomAvailable(reservations, x.id, start, end)
                         then multiset(rooms)[x] else 0)
    ensures Subsequence(r, rooms)
  {
    if |rooms| == 0 then []
    else
      var rest := AvailableAmong(rooms[1..], reservations, filter, start, end);
      assert rooms == [rooms[0]] + rooms[1..];
      if KindMatches(filter, rooms[0]) && IsRoomAvailable(reservations, rooms[0].id, start, end) then
        [rooms[0]] + rest
      else
        rest
  }

  /** The catalogue rooms of the requested kind with no overlapping
      reservation, in catalogue order. The range is not validated: an empty
      or inverted range overlaps nothing, so every room of the kind is
      listed. */
  function ListAvailableRooms(m: Manager, start: int, end: int, kind: Option<string>): (r: seq<Room>)
    ensures forall x :: x in r <==> x in m.rooms && KindMatches(ParseKind(kind), x)
                                    && IsRoomAvailable(m.reservations, x.id, start, end)
    ensures forall x :: multiset(r)[x] ==
                        (if KindMatches(ParseKind(kind), x) && IsRoomAvailable(m.reservations, x.id, start, end)
                         then multiset(m.rooms)[x] else 0)
    ensures Subsequence(r, m.rooms)
    ensures end <= start ==> forall x | x in m.rooms && KindMatches(ParseKind(kind), x) :: x in r
  {
    AvailableAmong(m.rooms, m.reservations, ParseKind(kind), start, end)
  }

  // ----- Reservations -----

  /** Books `roomId` for [checkIn, checkOut). The checks run in the source's
      order: the dates first, then the room lookup, then availability; the
      first failing one decides the error and nothing changes. On success the
      reservation takes the counter's id, is stored under it, and the counter
      moves on by one. */
  function CreateReservation(m: Manager, guest: string, roomId: int, checkIn: int, checkOut: int)
    : (s: Step<Result<Reservation>>)
    ensures s.result.Failure? ==> s.manager == m
    ensures checkOut <= checkIn ==> s.result == Failure(InvalidDateRange)
    ensures checkIn < checkOut && GetRoomById(m.rooms, roomId).None? ==> s.result == Failure(RoomNotFound)
    ensures (checkIn < checkOut && GetRoomById(m.rooms, roomId).Some?
             && !IsRoomAvailable(m.reservations, roomId, checkIn, checkOut)) ==> s.result == Failure(RoomUnavailable)
    ensures s.result.Success? <==> checkIn < checkOut && GetRoomById(m.rooms, roomId).Some?
                                   && IsRoomAvailable(m.reservations, roomId, checkIn, checkOut)
    ensures s.result.Success? ==>
      var r := s.result.value;
      && r.id == m.nextId && r.guest == guest && r.checkIn == checkIn && r.checkOut == checkOut
      && r.room.id == roomId && GetRoomById(m.rooms, roomId) == Some(r.room)
      && s.manager.rooms == m.rooms
      && s.manager.nextId == m.nextId + 1
      && s.manager.reservations.Keys == m.reservations.Keys + {m.nextId}
      && s.manager.reservations[m.nextId] == r
      && (forall k | k in m.reservations && k != m.nextId :: s.manager.reservations[k] == m.reservations[k])
    ensures Valid(m) && s.result.Success? ==>
      m.nextId !in m.reservations && |s.manager.reservations| == |m.reservations| + 1
  {
    if checkOut <= checkIn then Step(m, Failure(InvalidDateRange))
    else
      match GetRoomById(m.rooms, roomId)
      case None => Step(m, Failure(RoomNotFound))
      case Some(room) =>
        if !IsRoomAvailable(m.reservations, roomId, checkIn, checkOut) then Step(m, Failure(RoomUnavailable))
        else
          var r := NewReservation(m.nextId, guest, room, checkIn, checkOut).value;
          Step(m.(reservations := m.reservations[m.nextId := r], nextId := m.nextId + 1), Success(r))
  }

  /** Cancels by deleting the stored reservation. Reports whether one was
      stored under `id`; when none was, nothing changes. */
  function CancelReservation(m: Manager, id: int): (s: Step<bool>)
    ensures s.result <==> id in m.reservations
    ensures !s.result ==> s.manager == m
    ensures s.manager.rooms == m.rooms && s.manager.nextId == m.nextId
    ensures s.manager.reservations.Keys == m.reservations.Keys - {id}
    ensures forall k | k in s.manager.reservations :: s.manager.reservations[k] == m.reservations[k]
  {
    if id in m.reservations then Step(m.(reservations := m.reservations - {id}), true)
    else Step(m, false)
  }

  /** The reservation stored under `id`, if any. */
  function GetReservation(m: Manager, id: int): (r: Option<Reservation>)
    ensures r.Some? <==> id in m.reservations
    ensures r.Some? ==> r.value == m.reservations[id]
  {
    if id in m.reservations then Some(m.reservations[id]) else None
  }

  /** The stored keys in [lo, hi), ascending. */
  function KeysBetween(reservations: map<int, Reservation>, lo: int, hi: int): (ks: seq<int>)
    decreases hi - lo
    ensures forall k :: k in ks <==> k in reservations && lo <= k < hi
    ensures forall i | 0 <= i < |ks| :: lo <= ks[i] < hi
    ensures forall i, j | 0 <= i < j < |ks| :: ks[i] < ks[j]
  {
    if hi <= lo then []
    else (if lo in reservations then [lo] else []) + KeysBetween(reservations, lo + 1, hi)
  }

  /** The stored reservations in the order they were inserted. Every
      insertion uses the counter, which is above every stored key, so
      insertion order is ascending key order. */
  function ListReservations(m: Manager): (rs: seq<Reservation>)
    ensures forall i | 0 <= i < |rs| :: rs[i] in m.reservations.Values
    ensures Valid(m) ==> forall i, j | 0 <= i < j < |rs| :: rs[i].id < rs[j].id
  {
    var ks := KeysBetween(m.reservations, FirstReservationId, m.nextId);
    seq(|ks|, i requires 0 <= i < |ks| => m.reservations[ks[i]])
  }

  /** The total cost of the reservation stored under `id`. */
  function CalculateReservationCost(m: Manager, id: int): (r: Result<real>)
    ensures r.Failure? <==> id !in m.reservations
    ensures r.Failure? ==> r.error == ReservationNotFound
    ensures r.Success? ==> r.value == Price(m.reservations[id].room, m.reservations[id].checkOut - m.reservations[id].checkIn)
  {
    match GetReservation(m, id)
    case None => Failure(ReservationNotFound)
    case Some(r) => Success(TotalCost(r))
  }
}
