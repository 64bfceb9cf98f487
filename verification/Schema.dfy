/** The six tables of the reservation database as one immutable value, and the words the code uses. */
module Schema {

  /** A UUID, read as the 128-bit number its bytes spell (module Uuid relates this to its text). */
  type Id = nat

  /** A timestamptz reading. */
  type Time = int

  const INT32_MIN := -0x8000_0000
  const INT32_MAX := 0x7FFF_FFFF

  predicate Int32(n: int) {
    INT32_MIN <= n <= INT32_MAX
  }

  datatype Option<+T> = None | Some(value: T)

  /** ck_reservations_status and its two sisters admit these four words only. */
  datatype Status = Reserved | Confirmed | Cancelled | Expired

  /** ck_reservations_reservation_type admits these two words only. */
  datatype Kind = Quantity | Seats

  datatype TicketType = TicketType(eventId: Id, name: string, total: int, sold: int, reserved: int)

  datatype Seat = Seat(eventId: Id, section: string, rowName: string, seatNumber: string)

  /** A row of `reservations`: the header whose row lock serialises the lifecycle. */
  datatype Reservation = Reservation(
    eventId: Id, sessionId: Id, userId: Option<Id>, status: Status, kind: Kind, key: string, expiresAt: Time)

  /** A row of `reservation_items`. */
  datatype Item = Item(reservationId: Id, ticketTypeId: Id, quantity: int, status: Status)

  /** A row of `reservation_seats`. */
  datatype Hold = Hold(reservationId: Id, seatId: Id, status: Status, expiresAt: Time)

  datatype Tables = Tables(
    events: map<Id, string>,
    ticketTypes: map<Id, TicketType>,
    seats: map<Id, Seat>,
    reservations: map<Id, Reservation>,
    items: map<Id, Item>,
    holds: map<Id, Hold>)

  /** The rows the partial index uq_active_reservation_seat covers. */
  predicate Active(status: Status) {
    status.Reserved? || status.Confirmed?
  }

  /** The visitor session a request comes with. */
  datatype Visitor = Visitor(sessionId: Id, userId: Option<Id>)

  predicate CanAccess(header: Reservation, visitor: Visitor) {
    header.sessionId == visitor.sessionId
    || (header.userId.Some? && visitor.userId.Some? && header.userId == visitor.userId)
  }

  /** reservationExpired: the deadline itself already counts as passed. */
  predicate Overdue(header: Reservation, now: Time) {
    header.expiresAt <= now
  }
}
