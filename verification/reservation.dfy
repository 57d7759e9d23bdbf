/** Reservations: a guest's stay in one room over the half-open night range
    [checkIn, checkOut). Dates are day ordinals, so the difference of two
    dates is a plain integer subtraction. */
module Reservations {
  import opened Results
  import opened Rooms

  /** A stored reservation. It keeps the room value it was booked for, so its
      price follows that room's category and rate. */
  datatype Reservation = Reservation(id: int, guest: string, room: Room, checkIn: int, checkOut: int)

  /** What every constructed reservation satisfies: a non-empty stay. */
  predicate WellFormed(r: Reservation) {
    r.checkIn < r.checkOut
  }

  /** Night `d` lies inside the half-open range [start, end). */
  predicate Night(start: int, end: int, d: int) {
    start <= d < end
  }

  /** The constructor: refuses a stay whose check-out is not strictly after
      its check-in, and otherwise keeps its arguments unchanged. */
  function NewReservation(id: int, guest: string, room: Room, checkIn: int, checkOut: int): (r: Result<Reservation>)
    ensures r.Failure? <==> checkOut <= checkIn
    ensures r.Failure? ==> r.error == InvalidDateRange
    ensures r.Success? ==> WellFormed(r.value)
    ensures r.Success? ==> r.value.id == id && r.value.guest == guest && r.value.room == room
                           && r.value.checkIn == checkIn && r.value.checkOut == checkOut
  {
    if checkOut <= checkIn then Failure(InvalidDateRange)
    else Success(Reservation(id, guest, room, checkIn, checkOut))
  }

  /** Number of nights: the stay ends exactly `n` days after it begins. */
  function NumNights(r: Reservation): (n: int)
    ensures r.checkIn + n == r.checkOut
    ensures WellFormed(r) ==> n > 0
  {
    r.checkOut - r.checkIn
  }

  /** Price of the whole stay, from the booked room's formula. */
  function TotalCost(r: Reservation): (c: real)
    ensures c == Price(r.room, r.checkOut - r.checkIn)
    ensures r.room.baseRate >= 0.0 ==> c >= 0.0
    ensures WellFormed(r) && r.room.category == Premium && r.room.baseRate >= 0.0 ==> c >= ConciergeFee
  {
    Price(r.room, NumNights(r))
  }

  /** Whether the requested range [start, end) overlaps the stay
      [checkIn, checkOut). An empty or inverted request never overlaps, and
      ranges that only touch at an endpoint do not overlap. */
  function Overlaps(r: Reservation, start: int, end: int): (o: bool)
    ensures end <= start ==> !o
    ensures end <= r.checkIn || r.checkOut <= start ==> !o
    ensures start < end ==> (o <==> start < r.checkOut && r.checkIn < end)
    ensures WellFormed(r) && start == r.checkIn && end == r.checkOut ==> o
  {
    if end <= start then false
    else !(end <= r.checkIn || start >= r.checkOut)
  }

  /** For a constructed reservation, overlap means exactly that some night
      belongs both to the request and to the stay. */
  lemma OverlapsIffSharedNight(r: Reservation, start: int, end: int)
    requires WellFormed(r)
    ensures Overlaps(r, start, end) <==> exists d :: Night(start, end, d) && Night(r.checkIn, r.checkOut, d)
  {
    if Overlaps(r, start, end) {
      var d := if start < r.checkIn then r.checkIn else start;
      assert Night(start, end, d) && Night(r.checkIn, r.checkOut, d);
    }
  }

  /** Overlap between two constructed reservations does not depend on which
      one is asked. */
  lemma OverlapsSymmetric(a: Reservation, b: Reservation)
    requires WellFormed(a) && WellFormed(b)
    ensures Overlaps(a, b.checkIn, b.checkOut) == Overlaps(b, a.checkIn, a.checkOut)
  {
  }
}
