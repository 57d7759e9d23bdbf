/** Properties that relate several calls of the booking manager: the
    invariant is kept by every operation, cancelling frees the range again,
    overlapping bookings of one room cannot both succeed, and the store's
    listing and scan agree with the store itself. */
module BookingProperties {
  import opened Results
  import opened Rooms
  import opened Reservations
  import opened BookingManager

  // ----- Listing and scanning the store -----

  /** Under the invariant, the listing holds every stored reservation, each
      exactly once, in ascending id order. */
  lemma ListReservationsExact(m: Manager)
    requires Valid(m)
    ensures forall k | k in m.reservations :: m.reservations[k] in ListReservations(m)
    ensures forall r | r in ListReservations(m) :: r.id in m.reservations && m.reservations[r.id] == r
    ensures forall i, j | 0 <= i < j < |ListReservations(m)| :: ListReservations(m)[i] != ListReservations(m)[j]
  {
    var rs := ListReservations(m);
    var ks := KeysBetween(m.reservations, FirstReservationId, m.nextId);
    assert |rs| == |ks|;
    forall k | k in m.reservations
      ensures m.reservations[k] in rs
    {
      assert StoredCorrectly(m, k);
      assert k in ks;
      var i :| 0 <= i < |ks| && ks[i] == k;
      assert rs[i] == m.reservations[k];
    }
    forall r | r in rs
      ensures r.id in m.reservations && m.reservations[r.id] == r
    {
      var i :| 0 <= i < |rs| && rs[i] == r;
      assert r == m.reservations[ks[i]];
      assert StoredCorrectly(m, ks[i]);
    }
  }

  /** Scanning the listing, as the source's availability check does, answers
      exactly the store-wide availability question. */
  lemma ScanAgreesWithStore(m: Manager, roomId: int, start: int, end: int)
    requires Valid(m)
    ensures (forall i | 0 <= i < |ListReservations(m)| :: !Conflicts(ListReservations(m)[i], roomId, start, end))
            <==> IsRoomAvailable(m.reservations, roomId, start, end)
  {
    var rs := ListReservations(m);
    ListReservationsExact(m);
    if forall i | 0 <= i < |rs| :: !Conflicts(rs[i], roomId, start, end) {
      forall k | k in m.reservations
        ensures !Conflicts(m.reservations[k], roomId, start, end)
      {
        var i :| 0 <= i < |rs| && rs[i] == m.reservations[k];
      }
    }
  }

  /** A room is available for a range exactly when no stored reservation on
      it shares a night with the range. */
  lemma AvailableIffNoSharedNight(m: Manager, roomId: int, start: int, end: int)
    requires Valid(m)
    ensures IsRoomAvailable(m.reservations, roomId, start, end) <==>
            forall k, d | k in m.reservations && m.reservations[k].room.id == roomId ::
              !(Night(start, end, d) && Night(m.reservations[k].checkIn, m.reservations[k].checkOut, d))
  {
    forall k | k in m.reservations
      ensures Overlaps(m.reservations[k], start, end) <==>
              exists d :: Night(start, end, d) && Night(m.reservations[k].checkIn, m.reservations[k].checkOut, d)
    {
      assert StoredCorrectly(m, k);
      OverlapsIffSharedNight(m.reservations[k], start, end);
    }
  }

  // ----- The invariant is preserved -----

  lemma {:induction false} AddRoomKeepsResolution(rooms: seq<Room>, room: Room, id: int)
    requires GetRoomById(rooms, id).Some?
    ensures GetRoomById(rooms + [room], id) == GetRoomById(rooms, id)
  {
    assert (rooms + [room])[0] == rooms[0];
    if rooms[0].id != id {
      assert (rooms + [room])[1..] == rooms[1..] + [room];
      AddRoomKeepsResolution(rooms[1..], room, id);
    }
  }

  lemma AddRoomPreservesValid(m: Manager, room: Room)
    requires Valid(m)
    ensures Valid(AddRoom(m, room))
  {
    var m' := AddRoom(m, room);
    forall k | k in m'.reservations
      ensures StoredCorrectly(m', k)
    {
      assert StoredCorrectly(m, k);
      AddRoomKeepsResolution(m.rooms, room, m.reservations[k].room.id);
    }
  }

  lemma CreatePreservesValid(m: Manager, guest: string, roomId: int, checkIn: int, checkOut: int)
    requires Valid(m)
    ensures Valid(CreateReservation(m, guest, roomId, checkIn, checkOut).manager)
  {
    var s := CreateReservation(m, guest, roomId, checkIn, checkOut);
    if s.result.Success? {
      var m', r, n := s.manager, s.result.value, m.nextId;
      forall k | k in m'.reservations
        ensures StoredCorrectly(m', k)
      {
        if k != n {
          assert StoredCorrectly(m, k);
        }
      }
      forall j, k | j in m'.reservations && k in m'.reservations && j != k
                    && m'.reservations[j].room.id == m'.reservations[k].room.id
        ensures !Overlaps(m'.reservations[j], m'.reservations[k].checkIn, m'.reservations[k].checkOut)
      {
        if j == n {
          assert StoredCorrectly(m, k);
          assert !Conflicts(m.reservations[k], roomId, checkIn, checkOut);
          OverlapsSymmetric(r, m.reservations[k]);
        } else if k == n {
          assert !Conflicts(m.reservations[j], roomId, checkIn, checkOut);
        }
      }
    }
  }

  lemma CancelPreservesValid(m: Manager, id: int)
    requires Valid(m)
    ensures Valid(CancelReservation(m, id).manager)
  {
    var m' := CancelReservation(m, id).manager;
    forall k | k in m'.reservations
      ensures StoredCorrectly(m', k)
    {
      assert StoredCorrectly(m, k);
    }
  }

  /** The operations a caller can issue. */
  datatype Op =
    | Create(guest: string, roomId: int, checkIn: int, checkOut: int)
    | Cancel(id: int)
    | Add(room: Room)

  function Apply(m: Manager, op: Op): Manager {
    match op
    case Create(g, roomId, ci, co) => CreateReservation(m, g, roomId, ci, co).manager
    case Cancel(id) => CancelReservation(m, id).manager
    case Add(room) => AddRoom(m, room)
  }

  function Run(m: Manager, ops: seq<Op>): Manager
    decreases |ops|
  {
    if |ops| == 0 then m else Run(Apply(m, ops[0]), ops[1..])
  }

  /** Every manager reachable from a fresh one satisfies the invariant; in
      particular no two stored reservations on one room overlap. */
  lemma {:induction false} RunPreservesValid(m: Manager, ops: seq<Op>)
    requires Valid(m)
    ensures Valid(Run(m, ops))
    ensures NoDoubleBooking(Run(m, ops).reservations)
    decreases |ops|
  {
    if |ops| > 0 {
      match ops[0] {
        case Create(g, roomId, ci, co) => CreatePreservesValid(m, g, roomId, ci, co);
        case Cancel(id) => CancelPreservesValid(m, id);
        case Add(room) => AddRoomPreservesValid(m, room);
      }
      RunPreservesValid(Apply(m, ops[0]), ops[1..]);
    }
  }

  lemma ReachableValid(ops: seq<Op>)
    ensures Valid(Run(Init(), ops))
  {
    RunPreservesValid(Init(), ops);
  }

  // ----- Booking, cancelling and rebooking -----

  /** Once a booking succeeds, a second booking of the same room for any
      overlapping range is refused as unavailable. */
  lemma OverlappingSecondBookingFails(m: Manager, g1: string, g2: string, roomId: int,
                                      a1: int, b1: int, a2: int, b2: int)
    requires CreateReservation(m, g1, roomId, a1, b1).result.Success?
    requires a2 < b2 && a2 < b1 && a1 < b2
    ensures CreateReservation(CreateReservation(m, g1, roomId, a1, b1).manager, g2, roomId, a2, b2).result
            == Failure(RoomUnavailable)
  {
    var m1 := CreateReservation(m, g1, roomId, a1, b1).manager;
    assert Conflicts(m1.reservations[m.nextId], roomId, a2, b2);
  }

  /** A second cancel of the same id finds nothing and reports false. */
  lemma SecondCancelFails(m: Manager, id: int)
    ensures !CancelReservation(CancelReservation(m, id).manager, id).result
  {
  }

  /** Cancelling a stored reservation frees its room for exactly the same
      range: booking it again succeeds, with the next fresh id. */
  lemma CancelThenRebook(m: Manager, k: int, guest: string)
    requires Valid(m) && k in m.reservations
    ensures var r := m.reservations[k];
            var s := CreateReservation(CancelReservation(m, k).manager, guest, r.room.id, r.checkIn, r.checkOut);
            s.result.Success? && s.result.value.id == m.nextId && s.result.value.room == r.room
  {
    var r := m.reservations[k];
    var m' := CancelReservation(m, k).manager;
    assert StoredCorrectly(m, k);
    forall j | j in m'.reservations
      ensures !Conflicts(m'.reservations[j], r.room.id, r.checkIn, r.checkOut)
    {
      assert j != k;
    }
  }

  /** Stored reservations are found under their id until cancelled. */
  lemma CreateThenGetThenCancel(m: Manager, guest: string, roomId: int, checkIn: int, checkOut: int)
    requires CreateReservation(m, guest, roomId, checkIn, checkOut).result.Success?
    ensures var s := CreateReservation(m, guest, roomId, checkIn, checkOut);
            && GetReservation(s.manager, m.nextId) == Some(s.result.value)
            && CancelReservation(s.manager, m.nextId).result
            && GetReservation(CancelReservation(s.manager, m.nextId).manager, m.nextId) == None
  {
  }

  // ----- Cost -----

  /** The cost of a new booking is its room's price for the stay, it is not
      negative for a non-negative rate, and neither a later booking nor a
      cancel of another reservation changes it. */
  lemma CostOfBookingIsStable(m: Manager, guest: string, roomId: int, checkIn: int, checkOut: int,
                              g2: string, room2: int, in2: int, out2: int, other: int)
    requires Valid(m)
    requires CreateReservation(m, guest, roomId, checkIn, checkOut).result.Success?
    requires other != m.nextId
    ensures var s := CreateReservation(m, guest, roomId, checkIn, checkOut);
            var id := s.result.value.id;
            var cost := CalculateReservationCost(s.manager, id);
            && cost == Success(Price(s.result.value.room, checkOut - checkIn))
            && (s.result.value.room.baseRate >= 0.0 ==> cost.value >= 0.0)
            && CalculateReservationCost(CreateReservation(s.manager, g2, room2, in2, out2).manager, id) == cost
            && CalculateReservationCost(CancelReservation(s.manager, other).manager, id) == cost
  {
    var s := CreateReservation(m, guest, roomId, checkIn, checkOut);
    CreatePreservesValid(m, guest, roomId, checkIn, checkOut);
    assert StoredCorrectly(s.manager, m.nextId);
  }

  /** A room added to the catalogue twice is listed twice when it is free. */
  lemma DuplicateRoomListedTwice(room: Room, start: int, end: int)
    ensures |ListAvailableRooms(Manager([room, room], map[], FirstReservationId), start, end, None)| == 2
  {
    var m := Manager([room, room], map[], FirstReservationId);
    var r := ListAvailableRooms(m, start, end, None);
    assert forall x :: multiset(r)[x] == multiset(m.rooms)[x];
    assert multiset(r) == multiset(m.rooms);
    assert |r| == |multiset(r)| == |multiset(m.rooms)| == |m.rooms|;
  }

  // ----- Category filter -----

  /** The kind filter ignores letter case. */
  lemma ParseKindIgnoresCase(s: string)
    ensures ParseKind(Some(Lower(s))) == ParseKind(Some(s))
  {
    LowerIdempotent(s);
  }

  lemma ParseKindExamples()
    ensures ParseKind(Some("SUITE")) == Some(Suite)
    ensures ParseKind(Some("Premium")) == Some(Premium)
    ensures ParseKind(Some("Est\U{c1}ndar")) == Some(Standard)
    ensures ParseKind(Some("Standard")) == Some(Standard)
    ensures ParseKind(Some("deluxe")) == None
    ensures ParseKind(Some("")) == None
    ensures ParseKind(None) == None
  {
    assert Lower("SUITE") == "suite";
    assert Lower("Premium") == "premium";
    assert Lower("Est\U{c1}ndar") == "est\U{e1}ndar";
    assert Lower("Standard") == "standard";
    assert Lower("deluxe") == "deluxe";
  }

  // ----- A booking session -----

  /** From a fresh manager, for any first night `d`: booking room 101 for
      three nights succeeds with id 1 and costs 300; a request overlapping
      its last night is refused; the adjacent range starting on its
      check-out day succeeds with id 2; an empty range is refused before
      anything else and changes nothing. */
  lemma BookingSession(d: int, guest: string)
    ensures var s1 := CreateReservation(Init(), guest, 101, d, d + 3);
            && s1.result.Success? && s1.result.value.id == 1
            && CalculateReservationCost(s1.manager, 1) == Success(300.0)
            && CreateReservation(s1.manager, guest, 101, d + 2, d + 5).result == Failure(RoomUnavailable)
            && CreateReservation(s1.manager, guest, 101, d + 3, d + 5).result.Success?
            && CreateReservation(s1.manager, guest, 101, d + 3, d + 5).result.value.id == 2
            && CreateReservation(s1.manager, guest, 101, d, d) == Step(s1.manager, Failure(InvalidDateRange))
  {
    var m := Init();
    assert GetRoomById(m.rooms, 101) == Some(m.rooms[0]);
    var s1 := CreateReservation(m, guest, 101, d, d + 3);
    assert s1.manager.reservations == map[1 := s1.result.value];
    OverlappingSecondBookingFails(m, guest, guest, 101, d, d + 3, d + 2, d + 5);
  }
}
