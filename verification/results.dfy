/** Failure-carrying values shared by the booking model. The source signals
    every failure by raising `ValueError` with a distinct message; each
    message becomes one constructor of `Error`. */
module Results {

  datatype Option<+T> = None | Some(value: T)

  datatype Result<+T> = Success(value: T) | Failure(error: Error)

  /** The failure kinds the booking core raises. */
  datatype Error =
    | InvalidDateRange      // check-out not strictly after check-in
    | RoomNotFound          // no catalogue room has the requested id
    | RoomUnavailable       // a stored reservation on that room overlaps
    | ReservationNotFound   // no stored reservation has the requested id
}
