/** What PostgreSQL enforces on every row, and what the service keeps on top of it. */
module Invariant {
  import opened Schema
  import opened Sums

  // ---------- enforced by the schema ----------

  /** The four CHECKs on the counters, and the int32 column width. */
  predicate CounterOk(t: TicketType) {
    && 0 <= t.total <= INT32_MAX
    && 0 <= t.sold
    && 0 <= t.reserved
    && t.sold + t.reserved <= t.total
  }

  ghost predicate ChecksOk(s: Tables) {
    && (forall k :: k in s.ticketTypes ==> CounterOk(s.ticketTypes[k]))
    && (forall i :: i in s.items ==> 0 < s.items[i].quantity <= INT32_MAX)
  }

  ghost predicate ReferencesOk(s: Tables) {
    && (forall k :: k in s.ticketTypes ==> s.ticketTypes[k].eventId in s.events)
    && (forall k :: k in s.seats ==> s.seats[k].eventId in s.events)
    && (forall r :: r in s.reservations ==> s.reservations[r].eventId in s.events)
    && (forall i :: i in s.items ==>
          s.items[i].reservationId in s.reservations && s.items[i].ticketTypeId in s.ticketTypes)
    && (forall h :: h in s.holds ==> s.holds[h].reservationId in s.reservations && s.holds[h].seatId in s.seats)
  }

  predicate SameKey(a: Reservation, b: Reservation) {
    a.sessionId == b.sessionId && a.key == b.key
  }

  ghost predicate KeysUnique(s: Tables) {
    forall a, b :: a in s.reservations && b in s.reservations && SameKey(s.reservations[a], s.reservations[b]) ==>
        a == b
  }

  predicate ActiveOn(s: Tables, h: Id, seat: Id) {
    h in s.holds && s.holds[h].seatId == seat && Active(s.holds[h].status)
  }

  function ActiveHolds(s: Tables, seat: Id): set<Id> {
    set h | h in s.holds && ActiveOn(s, h, seat)
  }

  /** uq_active_reservation_seat */
  ghost predicate ActiveUnique(s: Tables) {
    forall g, h, seat :: ActiveOn(s, g, seat) && ActiveOn(s, h, seat) ==> g == h
  }

  lemma FewerActive(s: Tables, s': Tables)
    requires ActiveUnique(s) && forall h, seat :: ActiveOn(s', h, seat) ==> ActiveOn(s, h, seat)
    ensures ActiveUnique(s')
  {
    forall g, h, seat | ActiveOn(s', g, seat) && ActiveOn(s', h, seat) ensures g == h {
      assert ActiveOn(s, g, seat) && ActiveOn(s, h, seat);
    }
  }

  ghost predicate Constraints(s: Tables) {
    ChecksOk(s) && ReferencesOk(s) && KeysUnique(s) && ActiveUnique(s)
  }

  // ---------- kept by the service ----------

  /** The counters are an index over the item rows. */
  ghost predicate Conserved(s: Tables) {
    forall k :: k in s.ticketTypes ==>
      && s.ticketTypes[k].reserved == Qty(s.items, WithStatus(s.items, Reserved), k)
      && s.ticketTypes[k].sold == Qty(s.items, WithStatus(s.items, Confirmed), k)
  }

  predicate ItemAgrees(s: Tables, item: Item) {
    && item.reservationId in s.reservations && item.ticketTypeId in s.ticketTypes
    && var header := s.reservations[item.reservationId];
    && header.kind == Quantity
    && item.status == header.status
    && s.ticketTypes[item.ticketTypeId].eventId == header.eventId
  }

  predicate HoldAgrees(s: Tables, hold: Hold) {
    && hold.reservationId in s.reservations && hold.seatId in s.seats
    && var header := s.reservations[hold.reservationId];
    && header.kind == Seats
    && hold.status == header.status
    && hold.expiresAt == header.expiresAt
    && s.seats[hold.seatId].eventId == header.eventId
  }

  ghost predicate HasItem(s: Tables, r: Id) {
    exists i :: i in s.items && s.items[i].reservationId == r
  }

  ghost predicate HasHold(s: Tables, r: Id) {
    exists h :: h in s.holds && s.holds[h].reservationId == r
  }

  /** Each header agrees with its children. */
  ghost predicate Agrees(s: Tables) {
    && (forall i :: i in s.items ==> ItemAgrees(s, s.items[i]))
    && (forall h :: h in s.holds ==> HoldAgrees(s, s.holds[h]))
    && (forall r :: r in s.reservations ==>
          if s.reservations[r].kind == Quantity then HasItem(s, r) else HasHold(s, r))
  }

  ghost predicate Inv(s: Tables) {
    Constraints(s) && Conserved(s) && Agrees(s)
  }

  /** The kind of a header says which child table is empty for it. */
  lemma OneKindOfChild(s: Tables, r: Id)
    requires Inv(s) && r in s.reservations
    ensures HasItem(s, r) <==> s.reservations[r].kind == Quantity
    ensures HasHold(s, r) <==> s.reservations[r].kind == Seats
  {
  }

  /** A fresh catalogue, with stock but no reservations, is a legal place to start. */
  lemma CatalogueOk(s: Tables)
    requires s.reservations == map[] && s.items == map[] && s.holds == map[]
    requires forall k :: k in s.ticketTypes ==>
      var t := s.ticketTypes[k];
      t.eventId in s.events && 0 <= t.total <= INT32_MAX && t.sold == 0 && t.reserved == 0
    requires forall k :: k in s.seats ==> s.seats[k].eventId in s.events
    ensures Inv(s)
  {
    forall k, st | k in s.ticketTypes ensures Qty(s.items, WithStatus(s.items, st), k) == 0 {
      QtyNone(s.items, WithStatus(s.items, st), k);
    }
  }
}
