/**
 The database as PostgreSQL runs it for one transaction at a time: each method is one SQL statement, and the
 constraints of the schema hold before and after every statement. Counter arithmetic is done in int32, so
 verification shows that no addition or subtraction in a statement overflows.
 */
module Queries {
  import opened Schema
  import opened Ordering
  import opened Invariant
  import opened Settlement
  import opened Serial
  import opened Like

  newtype int32 = n: int | INT32_MIN <= n <= INT32_MAX

  /** What a statement that returns one row can answer. */
  datatype Sql<+T> = Row(value: T) | NoRows | UniqueViolation | Rejected

  /** The holds of one reservation, and the order ListReservationSeats gives them in. */
  function HoldsOf(holds: map<Id, Hold>, r: Id): set<Id> {
    set h | h in holds && holds[h].reservationId == r
  }

  function SeatOrder(holds: map<Id, Hold>): Id -> int {
    h => if h in holds then holds[h].seatId else 0
  }

  /** The worker's queue: overdue reserved reservations, earliest (expires_at, id) first. */
  function DueQueue(s: Tables, now: Time): (ids: seq<Id>)
    ensures Listing(Deadlines(s), Overdues(s, now), ids)
  {
    OrderBy(Overdues(s, now), Deadlines(s))
  }

  /** hold is the reason why the listing names reservation r. */
  predicate HeldPast(hold: Hold, r: Id, seatIds: seq<Id>, now: Time) {
    hold.reservationId == r && hold.seatId in seatIds && hold.status == Reserved && hold.expiresAt <= now
  }

  lemma OverdueHoldersAre(s: Tables, seatIds: seq<Id>, now: Time)
    ensures forall r ::
              r in OverdueHolders(s, ToSet(seatIds), now) <==>
              exists h :: h in s.holds && HeldPast(s.holds[h], r, seatIds, now)
  {
    forall r
      ensures r in OverdueHolders(s, ToSet(seatIds), now)
              <==> exists h :: h in s.holds && HeldPast(s.holds[h], r, seatIds, now)
    {
      if r in OverdueHolders(s, ToSet(seatIds), now) {
        var h :| h in s.holds && s.holds[h].seatId in ToSet(seatIds) && s.holds[h].status == Reserved
          && s.holds[h].expiresAt <= now
                 && s.holds[h].reservationId == r;
        assert HeldPast(s.holds[h], r, seatIds, now);
      }
      if h :| h in s.holds && HeldPast(s.holds[h], r, seatIds, now) { assert s.holds[h].seatId in ToSet(seatIds); }
    }
  }

  /** The type is the event's and has this much left. */
  predicate InStock(s: Tables, typeId: Id, eventId: Id, quantity: int) {
    && typeId in s.ticketTypes && s.ticketTypes[typeId].eventId == eventId
    && s.ticketTypes[typeId].sold + s.ticketTypes[typeId].reserved + quantity <= s.ticketTypes[typeId].total
  }

  // ---------- SELECT ... WHERE status = 'reserved' AND expires_at < now ORDER BY expires_at, id LIMIT ----------

  /** The worker may take r: reserved, strictly past its deadline, and not skipped because it is locked. */
  predicate Takable(s: Tables, skipped: set<Id>, now: Time, r: Id) {
    && r in s.reservations && s.reservations[r].status == Reserved && s.reservations[r].expiresAt < now
    && r !in skipped
  }

  predicate EarlierDeadline(s: Tables, x: Id, y: Id) {
    && x in s.reservations && y in s.reservations
    && (s.reservations[x].expiresAt < s.reservations[y].expiresAt
        || (s.reservations[x].expiresAt == s.reservations[y].expiresAt && x < y))
  }

  /**
   The batch: takable reservations in order, the limit of them or else all, and none after one that is left out.
   A skipped reservation is left out, and keeps no other one out.
   */
  ghost predicate FirstDue(s: Tables, skipped: set<Id>, now: Time, limit: nat, batch: seq<Id>) {
    && (forall r :: r in batch ==> Takable(s, skipped, now, r))
    && |batch| <= limit
    && (|batch| == limit || forall r :: Takable(s, skipped, now, r) ==> r in batch)
    && (forall j, k :: 0 <= j < k < |batch| ==> EarlierDeadline(s, batch[j], batch[k]))
    && (forall x, y :: x in batch && Takable(s, skipped, now, y) && y !in batch ==> EarlierDeadline(s, x, y))
  }

  lemma BeforeIsEarlier(s: Tables, x: Id, y: Id)
    requires x in s.reservations && y in s.reservations
    ensures Before(Deadlines(s), x, y) <==> EarlierDeadline(s, x, y)
  {
  }

  /** A prefix of the rows that may be taken, listed by deadline, is such a batch. */
  lemma PrefixFirstDue(s: Tables, skipped: set<Id>, now: Time, limit: nat, rows: set<Id>, ids: seq<Id>)
    requires Listing(Deadlines(s), rows, ids) && forall r :: r in rows <==> Takable(s, skipped, now, r)
    ensures FirstDue(s, skipped, now, limit, Prefix(ids, limit))
  {
    hide Deadlines;
    var batch := Prefix(ids, limit);
    forall r | r in batch ensures Takable(s, skipped, now, r) { assert r in ids; }
    forall r | |batch| != limit && Takable(s, skipped, now, r) ensures r in batch { assert r in ids && batch == ids; }
    forall j, k | 0 <= j < k < |batch| ensures EarlierDeadline(s, batch[j], batch[k]) {
      assert batch[j] in batch && batch[k] in batch;
      BeforeIsEarlier(s, ids[j], ids[k]);
    }
    forall x, y | x in batch && Takable(s, skipped, now, y) && y !in batch ensures EarlierDeadline(s, x, y) {
      var j :| 0 <= j < |batch| && batch[j] == x;
      assert Takable(s, skipped, now, x) && y in ids;
      var k :| 0 <= k < |ids| && ids[k] == y;
      assert forall i :: 0 <= i < |batch| ==> ids[i] in batch;
      BeforeIsEarlier(s, ids[j], ids[k]);
    }
  }

  /** The first limit rows of the queue are the earliest overdue reservations. */
  lemma PrefixEarliest(s: Tables, now: Time, limit: nat)
    ensures FirstDue(s, {}, now, limit, Prefix(DueQueue(s, now), limit))
    ensures Distinct(Prefix(DueQueue(s, now), limit))
  {
    PrefixFirstDue(s, {}, now, limit, Overdues(s, now), DueQueue(s, now));
    ListingDistinct(Deadlines(s), Overdues(s, now), DueQueue(s, now));
  }

  function EventSeats(s: Tables, eventId: Id, seatIds: seq<Id>): set<Id> {
    set k | k in seatIds && k in s.seats && s.seats[k].eventId == eventId
  }

  /** ids lists the items of reservation r, each once, ORDER BY ticket_type_id, id. */
  ghost predicate ItemsInOrder(items: map<Id, Item>, r: Id, ids: seq<Id>) {
    && (forall i :: i in ids <==> i in items && items[i].reservationId == r)
    && (forall j, k :: 0 <= j < k < |ids| ==> TypeBefore(items, ids[j], ids[k]))
  }

  predicate TypeBefore(items: map<Id, Item>, x: Id, y: Id) {
    && x in items && y in items
    && (items[x].ticketTypeId < items[y].ticketTypeId || (items[x].ticketTypeId == items[y].ticketTypeId && x < y))
  }

  /** ids lists the holds of reservation r, each once, ORDER BY seat_id, id. */
  ghost predicate HoldsInOrder(holds: map<Id, Hold>, r: Id, ids: seq<Id>) {
    && (forall h :: h in ids <==> h in holds && holds[h].reservationId == r)
    && (forall j, k :: 0 <= j < k < |ids| ==> SeatBefore(holds, ids[j], ids[k]))
  }

  predicate SeatBefore(holds: map<Id, Hold>, x: Id, y: Id) {
    && x in holds && y in holds
    && (holds[x].seatId < holds[y].seatId || (holds[x].seatId == holds[y].seatId && x < y))
  }

  lemma ItemsListed(items: map<Id, Item>, r: Id)
    ensures ItemsInOrder(items, r, OrderBy(ItemsOf(items, r), TypeOrder(items)))
  {
    var ids := OrderBy(ItemsOf(items, r), TypeOrder(items));
    forall j, k | 0 <= j < k < |ids| ensures TypeBefore(items, ids[j], ids[k]) {
      assert ids[j] in ids && ids[k] in ids && Before(TypeOrder(items), ids[j], ids[k]);
    }
  }

  lemma HoldsListed(holds: map<Id, Hold>, r: Id)
    ensures HoldsInOrder(holds, r, OrderBy(HoldsOf(holds, r), SeatOrder(holds)))
  {
    var ids := OrderBy(HoldsOf(holds, r), SeatOrder(holds));
    forall j, k | 0 <= j < k < |ids| ensures SeatBefore(holds, ids[j], ids[k]) {
      assert ids[j] in ids && ids[k] in ids && Before(SeatOrder(holds), ids[j], ids[k]);
    }
  }

  // ---------- idempotency lookups ----------

  /** The response to a quantity request; its item list always has one element. */
  datatype QuantityAnswer = QuantityAnswer(
    reservationId: Id, status: Status, kind: Kind, expiresAt: Time, ticketTypeId: Id, quantity: int)

  datatype SeatsAnswer = SeatsAnswer(reservationId: Id, status: Status, kind: Kind, expiresAt: Time, seats: seq<Id>)

  predicate KeyedAs(s: Tables, r: Id, sessionId: Id, key: string, kind: Kind) {
    r in s.reservations && s.reservations[r].sessionId == sessionId && s.reservations[r].key == key
    && s.reservations[r].kind == kind
  }

  /** Some reservation of this kind is stored under (session, key). */
  ghost predicate Stored(s: Tables, sessionId: Id, key: string, kind: Kind) {
    exists r :: KeyedAs(s, r, sessionId, key, kind)
  }

  function MatchingItems(s: Tables, sessionId: Id, key: string): set<Id> {
    set i | i in s.items && KeyedAs(s, s.items[i].reservationId, sessionId, key, Quantity)
  }

  function MatchingHolds(s: Tables, sessionId: Id, key: string): set<Id> {
    set h | h in s.holds && KeyedAs(s, s.holds[h].reservationId, sessionId, key, Seats)
  }

  /** GetQuantityReservationByIdempotencyKey: the join's first row by item id. */
  function LookupQuantity(s: Tables, sessionId: Id, key: string): Option<QuantityAnswer> {
    var ids := ById(MatchingItems(s, sessionId, key));
    if ids == [] then None
    else
      assert ids[0] in ids;
      var item := s.items[ids[0]];
      var header := s.reservations[item.reservationId];
      Some(QuantityAnswer(item.reservationId, header.status, header.kind, header.expiresAt, item.ticketTypeId,
                          item.quantity))
  }

  /** A row of GetSeatReservationByIdempotencyKey. */
  datatype SeatKeyRow = SeatKeyRow(reservationId: Id, status: Status, kind: Kind, expiresAt: Time, seatId: Id)

  predicate JoinsHeader(s: Tables, h: Id) {
    h in s.holds && s.holds[h].reservationId in s.reservations
  }

  function KeyRowOf(s: Tables, h: Id): SeatKeyRow
    requires JoinsHeader(s, h)
  {
    var hold := s.holds[h];
    var header := s.reservations[hold.reservationId];
    SeatKeyRow(hold.reservationId, header.status, header.kind, header.expiresAt, hold.seatId)
  }

  function KeyRows(s: Tables, ids: seq<Id>): (rows: seq<SeatKeyRow>)
    requires forall h :: h in ids ==> JoinsHeader(s, h)
    ensures |rows| == |ids| && forall j :: 0 <= j < |ids| ==> JoinsHeader(s, ids[j]) && rows[j] == KeyRowOf(s, ids[j])
  {
    assert forall j :: 0 <= j < |ids| ==> ids[j] in ids;
    seq(|ids|, j requires 0 <= j < |ids| && JoinsHeader(s, ids[j]) => KeyRowOf(s, ids[j]))
  }

  function SeatList(holds: map<Id, Hold>, ids: seq<Id>): seq<Id>
    requires forall h :: h in ids ==> h in holds
  {
    if ids == [] then [] else SeatList(holds, ids[..|ids| - 1]) + [holds[ids[|ids| - 1]].seatId]
  }

  /** GetSeatReservationByIdempotencyKey, and the response built from its rows. */
  function LookupSeats(s: Tables, sessionId: Id, key: string): Option<SeatsAnswer> {
    var ids := OrderBy(MatchingHolds(s, sessionId, key), SeatOrder(s.holds));
    if ids == [] then None
    else
      assert ids[0] in ids;
      var rid := s.holds[ids[0]].reservationId;
      var header := s.reservations[rid];
      Some(SeatsAnswer(rid, header.status, header.kind, header.expiresAt, SeatList(s.holds, ids)))
  }

  // ---------- what keeps the constraints ----------

  lemma ItemsMarkedKeeps(s: Tables, rs: set<Id>, target: Status)
    requires Constraints(s)
    ensures Constraints(s.(items := MarkedItems(s.items, rs, target)))
  {
    hide MarkedItems, KeysUnique, ActiveUnique;
    var s' := s.(items := MarkedItems(s.items, rs, target));
    MarkedItemsShape(s.items, rs, target);
    SameHeadersAndHolds(s, s');
  }

  /** The unique indexes concern headers and holds only. */
  lemma SameHeadersAndHolds(s: Tables, s': Tables)
    requires s'.reservations == s.reservations && s'.holds == s.holds && KeysUnique(s) && ActiveUnique(s)
    ensures KeysUnique(s') && ActiveUnique(s')
  {
    FewerActive(s, s');
  }

  lemma HoldsMarkedKeeps(s: Tables, rs: set<Id>, target: Status)
    requires Constraints(s)
    ensures Constraints(s.(holds := MarkedHolds(s.holds, rs, target)))
  {
    hide MarkedHolds;
    var s' := s.(holds := MarkedHolds(s.holds, rs, target));
    MarkedHoldsShape(s.holds, rs, target);
    MarkedUnique(s, s');
  }

  lemma MarkedUnique(s: Tables, s': Tables)
    requires KeysUnique(s) && ActiveUnique(s) && s'.reservations == s.reservations && s'.holds.Keys == s.holds.Keys
    requires forall h :: h in s.holds ==>
               s'.holds[h].seatId == s.holds[h].seatId && (Active(s'.holds[h].status) ==> Active(s.holds[h].status))
    ensures KeysUnique(s') && ActiveUnique(s')
  {
    FewerActive(s, s');
  }

  lemma HeadersMarkedKeeps(s: Tables, rs: set<Id>, target: Status)
    requires Constraints(s)
    ensures Constraints(s.(reservations := MarkedHeaders(s.reservations, rs, target)))
  {
    var s' := s.(reservations := MarkedHeaders(s.reservations, rs, target));
    FewerActive(s, s');
    forall x, y | x in s'.reservations && y in s'.reservations && SameKey(s'.reservations[x], s'.reservations[y])
      ensures x == y
    {
      assert SameKey(s.reservations[x], s.reservations[y]);
    }
  }

  lemma CounterKeepsConstraints(s: Tables, k: Id, t: TicketType)
    requires Constraints(s) && k in s.ticketTypes && CounterOk(t) && t.eventId == s.ticketTypes[k].eventId
    ensures Constraints(s.(ticketTypes := s.ticketTypes[k := t]))
  {
    var s' := s.(ticketTypes := s.ticketTypes[k := t]);
    FewerActive(s, s');
  }

  lemma StatusKeepsConstraints(s: Tables, rid: Id, target: Status)
    requires Constraints(s) && rid in s.reservations
    ensures Constraints(s.(reservations := s.reservations[rid := s.reservations[rid].(status := target)]))
  {
    var s' := s.(reservations := s.reservations[rid := s.reservations[rid].(status := target)]);
    FewerActive(s, s');
    forall a, b | a in s'.reservations && b in s'.reservations && SameKey(s'.reservations[a], s'.reservations[b])
      ensures a == b
    {
      assert SameKey(s.reservations[a], s.reservations[b]);
    }
  }

  /** An active row for the seat is in uq_active_reservation_seat. */
  predicate SeatTaken(s: Tables, seat: Id) {
    exists h :: h in s.holds && ActiveOn(s, h, seat)
  }

  lemma InsertHeaderKeeps(s: Tables, rid: Id, header: Reservation)
    requires Constraints(s) && rid !in s.reservations && !KeyTaken(s, header.sessionId, header.key)
             && header.eventId in s.events
    ensures Constraints(s.(reservations := s.reservations[rid := header]))
  {
    var s' := s.(reservations := s.reservations[rid := header]);
    NewKeyUnique(s, s', rid, header);
    FewerActive(s, s');
  }

  lemma InsertItemKeeps(s: Tables, iid: Id, item: Item)
    requires Constraints(s) && 0 < item.quantity <= INT32_MAX
    requires item.reservationId in s.reservations && item.ticketTypeId in s.ticketTypes
    ensures Constraints(s.(items := s.items[iid := item]))
  {
    var s' := s.(items := s.items[iid := item]);
    FewerActive(s, s');
  }

  lemma InsertHoldKeeps(s: Tables, hid: Id, hold: Hold)
    requires Constraints(s) && hid !in s.holds && hold.reservationId in s.reservations && hold.seatId in s.seats
    requires Active(hold.status) ==> !SeatTaken(s, hold.seatId)
    ensures Constraints(s.(holds := s.holds[hid := hold]))
  {
    var s' := s.(holds := s.holds[hid := hold]);
    forall g, h, seat | ActiveOn(s', g, seat) && ActiveOn(s', h, seat) ensures g == h {
      assert g != hid ==> ActiveOn(s, g, seat);
      assert h != hid ==> ActiveOn(s, h, seat);
    }
  }

  // ---------- rows by event ----------

  function EventsLike(s: Tables, pattern: string): set<Id> {
    set e | e in s.events && Matches(s.events[e], pattern)
  }

  function EventCount(s: Tables, es: set<Id>): nat {
    |s.events.Keys * es|
  }

  function TypesIn(s: Tables, es: set<Id>): set<Id> {
    set k | k in s.ticketTypes && s.ticketTypes[k].eventId in es
  }

  function SeatsIn(s: Tables, es: set<Id>): set<Id> {
    set k | k in s.seats && s.seats[k].eventId in es
  }

  function ReservationsIn(s: Tables, es: set<Id>): set<Id> {
    set r | r in s.reservations && s.reservations[r].eventId in es
  }

  function ItemsIn(s: Tables, es: set<Id>): set<Id> {
    set i | i in s.items && s.items[i].reservationId in ReservationsIn(s, es)
  }

  function HoldsIn(s: Tables, es: set<Id>): set<Id> {
    set h | h in s.holds && s.holds[h].reservationId in ReservationsIn(s, es)
  }

  /** A row that refers with RESTRICT to something the deletion of these events would take away. */
  predicate Restricted(s: Tables, es: set<Id>) {
    || ReservationsIn(s, es) != {}
    || (exists i :: i in s.items && s.items[i].ticketTypeId in TypesIn(s, es))
    || (exists h :: h in s.holds && s.holds[h].seatId in SeatsIn(s, es))
  }

  lemma DroppedHoldsKeep(s: Tables, gone: set<Id>)
    requires Constraints(s)
    ensures Constraints(s.(holds := s.holds - gone))
  {
    var s' := s.(holds := s.holds - gone);
    FewerActive(s, s');
  }

  lemma DroppedItemsKeep(s: Tables, gone: set<Id>)
    requires Constraints(s)
    ensures Constraints(s.(items := s.items - gone))
  {
    var s' := s.(items := s.items - gone);
    FewerActive(s, s');
  }

  lemma DroppedHeadersKeep(s: Tables, es: set<Id>)
    requires Constraints(s)
    ensures Constraints(s.(reservations := s.reservations - ReservationsIn(s, es), items := s.items - ItemsIn(s, es),
                           holds := s.holds - HoldsIn(s, es)))
  {
    hide ReservationsIn;
    var s' := s.(reservations := s.reservations - ReservationsIn(s, es), items := s.items - ItemsIn(s, es),
                 holds := s.holds - HoldsIn(s, es));
    FewerActive(s, s');
    forall a, b | a in s'.reservations && b in s'.reservations && SameKey(s'.reservations[a], s'.reservations[b])
      ensures a == b
    {
      assert SameKey(s.reservations[a], s.reservations[b]);
    }
  }

  lemma DroppedEventsKeep(s: Tables, es: set<Id>)
    requires Constraints(s) && !Restricted(s, es)
    ensures Constraints(s.(events := s.events - es, ticketTypes := s.ticketTypes - TypesIn(s, es),
                           seats := s.seats - SeatsIn(s, es)))
  {
    var s' := s.(events := s.events - es, ticketTypes := s.ticketTypes - TypesIn(s, es),
                 seats := s.seats - SeatsIn(s, es));
    FewerActive(s, s');
    forall r | r in s.reservations ensures s.reservations[r].eventId !in es {
      assert r !in ReservationsIn(s, es);
    }
  }

  // ---------- the statements ----------

  class Database {
    var events: map<Id, string>
    var ticketTypes: map<Id, TicketType>
    var seats: map<Id, Seat>
    var reservations: map<Id, Reservation>
    var items: map<Id, Item>
    var holds: map<Id, Hold>

    function Contents(): Tables
      reads this
    {
      Tables(events, ticketTypes, seats, reservations, items, holds)
    }

    ghost predicate Valid()
      reads this
    {
      Constraints(Contents())
    }

    constructor (s: Tables)
      requires Constraints(s)
      ensures Valid() && Contents() == s
    {
      events, ticketTypes, seats := s.events, s.ticketTypes, s.seats;
      reservations, items, holds := s.reservations, s.items, s.holds;
    }

    /** ROLLBACK: back to what BEGIN saw. */
    method Rollback(saved: Tables)
      requires Constraints(saved)
      modifies this
      ensures Valid() && Contents() == saved
    {
      events, ticketTypes, seats := saved.events, saved.ticketTypes, saved.seats;
      reservations, items, holds := saved.reservations, saved.items, saved.holds;
    }

    method ReserveTicketQuantity(id: Id, eventId: Id, quantity: int) returns (r: Sql<TicketType>)
      requires Valid() && 0 < quantity <= INT32_MAX
      modifies this`ticketTypes
      ensures Valid()
      ensures r == if id in old(ticketTypes) && StockFor(old(ticketTypes)[id], eventId, quantity)
                   then Row(old(ticketTypes)[id].(reserved := old(ticketTypes)[id].reserved + quantity)) else NoRows
      ensures ticketTypes == if r.Row? then old(ticketTypes)[id := r.value] else old(ticketTypes)
    {
      if id !in ticketTypes || ticketTypes[id].eventId != eventId { return NoRows; }
      var t := ticketTypes[id];
      var free := t.total as int32 - t.sold as int32 - t.reserved as int32;
      if free < quantity as int32 { return NoRows; }
      var reserved := t.reserved as int32 + quantity as int32;
      r := Row(t.(reserved := reserved as int));
      CounterKeepsConstraints(Contents(), id, r.value);
      ticketTypes := ticketTypes[id := r.value];
    }

    method ReleaseTicketQuantity(id: Id, quantity: int) returns (r: Sql<TicketType>)
      requires Valid() && 0 < quantity <= INT32_MAX
      modifies this`ticketTypes
      ensures Valid()
      ensures r == if id in old(ticketTypes) && old(ticketTypes)[id].reserved >= quantity
                   then Row(Shift(old(ticketTypes)[id], quantity, Cancelled)) else NoRows
      ensures ticketTypes == if r.Row? then old(ticketTypes)[id := r.value] else old(ticketTypes)
    {
      if id !in ticketTypes || ticketTypes[id].reserved < quantity { return NoRows; }
      var t := ticketTypes[id];
      var reserved := t.reserved as int32 - quantity as int32;
      r := Row(t.(reserved := reserved as int));
      CounterKeepsConstraints(Contents(), id, r.value);
      ticketTypes := ticketTypes[id := r.value];
    }

    method ConfirmTicketQuantity(id: Id, quantity: int) returns (r: Sql<TicketType>)
      requires Valid() && 0 < quantity <= INT32_MAX
      modifies this`ticketTypes
      ensures Valid()
      ensures r == if id in old(ticketTypes) && old(ticketTypes)[id].reserved >= quantity
                   then Row(Shift(old(ticketTypes)[id], quantity, Confirmed)) else NoRows
      ensures ticketTypes == if r.Row? then old(ticketTypes)[id := r.value] else old(ticketTypes)
    {
      if id !in ticketTypes || ticketTypes[id].reserved < quantity { return NoRows; }
      var t := ticketTypes[id];
      var reserved, sold := t.reserved as int32 - quantity as int32, t.sold as int32 + quantity as int32;
      r := Row(t.(reserved := reserved as int, sold := sold as int));
      CounterKeepsConstraints(Contents(), id, r.value);
      ticketTypes := ticketTypes[id := r.value];
    }

    method UpdateReservationItemsStatus(rid: Id, target: Status)
      requires Valid() && target != Reserved
      modifies this`items
      ensures Valid() && items == MarkedItems(old(items), {rid}, target)
      ensures items.Keys == old(items).Keys
      ensures forall x :: x in items ==>
                items[x] == if old(items)[x].reservationId == rid && old(items)[x].status == Reserved
                            then old(items)[x].(status := target) else old(items)[x]
    {
      hide Constraints;
      ItemsMarkedKeeps(Contents(), {rid}, target);
      items := MarkedItems(items, {rid}, target);
    }

    method UpdateReservationSeatsStatus(rid: Id, target: Status)
      requires Valid() && target != Reserved
      modifies this`holds
      ensures Valid() && holds == MarkedHolds(old(holds), {rid}, target)
      ensures holds.Keys == old(holds).Keys
      ensures forall x :: x in holds ==>
                holds[x] == if old(holds)[x].reservationId == rid && old(holds)[x].status == Reserved
                            then old(holds)[x].(status := target) else old(holds)[x]
    {
      hide Constraints;
      HoldsMarkedKeeps(Contents(), {rid}, target);
      holds := MarkedHolds(holds, {rid}, target);
    }

    /** The header update has no status guard: it overwrites whatever is there. */
    method UpdateReservationStatus(rid: Id, target: Status) returns (r: Sql<Reservation>)
      requires Valid()
      modifies this`reservations
      ensures Valid()
      ensures r == if rid in old(reservations) then Row(old(reservations)[rid].(status := target)) else NoRows
      ensures reservations == if r.Row? then old(reservations)[rid := r.value] else old(reservations)
    {
      if rid !in reservations { return NoRows; }
      StatusKeepsConstraints(Contents(), rid, target);
      r := Row(reservations[rid].(status := target));
      reservations := reservations[rid := r.value];
    }

    method ExpireReservationSeatsByReservationIDs(ids: seq<Id>)
      requires Valid()
      modifies this`holds
      ensures Valid() && holds == MarkedHolds(old(holds), ToSet(ids), Expired)
      ensures holds.Keys == old(holds).Keys
      ensures forall x :: x in holds ==>
                holds[x] == if old(holds)[x].reservationId in ids && old(holds)[x].status == Reserved
                            then old(holds)[x].(status := Expired) else old(holds)[x]
    {
      hide Constraints;
      HoldsMarkedKeeps(Contents(), ToSet(ids), Expired);
      holds := MarkedHolds(holds, ToSet(ids), Expired);
    }

    method ExpireReservationsByIDs(ids: seq<Id>)
      requires Valid()
      modifies this`reservations
      ensures Valid() && reservations == MarkedHeaders(old(reservations), ToSet(ids), Expired)
      ensures reservations.Keys == old(reservations).Keys
      ensures forall x :: x in reservations ==>
                reservations[x] == if x in ids && old(reservations)[x].status == Reserved
                                   then old(reservations)[x].(status := Expired) else old(reservations)[x]
    {
      hide Constraints;
      HeadersMarkedKeeps(Contents(), ToSet(ids), Expired);
      reservations := MarkedHeaders(reservations, ToSet(ids), Expired);
    }

    method LockReservationForUpdate(rid: Id) returns (r: Sql<Reservation>)
      ensures r == if rid in reservations then Row(reservations[rid]) else NoRows
    {
      r := if rid in reservations then Row(reservations[rid]) else NoRows;
    }

    method ListExpiredReservationsForUpdate(now: Time, limit: nat) returns (ids: seq<Id>)
      ensures ids == Prefix(DueQueue(Contents(), now), limit) && Distinct(ids)
      ensures FirstDue(Contents(), {}, now, limit, ids)
    {
      PrefixEarliest(Contents(), now, limit);
      ids := Prefix(DueQueue(Contents(), now), limit);
    }

    method LockEventSeats(eventId: Id, seatIds: seq<Id>) returns (ids: seq<Id>)
      ensures ids == ById(EventSeats(Contents(), eventId, seatIds)) && Ascending(ids)
      ensures forall id :: id in ids <==> id in seatIds && id in seats && seats[id].eventId == eventId
    {
      ids := ById(EventSeats(Contents(), eventId, seatIds));
    }

    method ListExpiredActiveReservationIDsForSeats(seatIds: seq<Id>, now: Time) returns (ids: seq<Id>)
      ensures ids == ById(OverdueHolders(Contents(), ToSet(seatIds), now)) && Ascending(ids)
      ensures forall r :: r in ids <==> exists h :: h in holds && HeldPast(holds[h], r, seatIds, now)
    {
      ids := ById(OverdueHolders(Contents(), ToSet(seatIds), now));
      OverdueHoldersAre(Contents(), seatIds, now);
    }

    method LockReservationsByID(ids: seq<Id>) returns (locked: seq<Id>)
      ensures locked == ById(set r | r in ids && r in reservations)
    {
      locked := ById(set r | r in ids && r in reservations);
    }

    method GetQuantityReservationByIdempotencyKey(sessionId: Id, key: string) returns (r: Option<QuantityAnswer>)
      ensures r == LookupQuantity(Contents(), sessionId, key)
    {
      r := LookupQuantity(Contents(), sessionId, key);
    }

    method GetSeatReservationByIdempotencyKey(sessionId: Id, key: string) returns (rows: seq<SeatKeyRow>)
      ensures rows == KeyRows(Contents(), OrderBy(MatchingHolds(Contents(), sessionId, key), SeatOrder(holds)))
    {
      var ids := OrderBy(MatchingHolds(Contents(), sessionId, key), SeatOrder(holds));
      rows := [];
      for n := 0 to |ids|
        invariant rows == KeyRows(Contents(), ids)[..n]
      {
        assert ids[n] in ids;
        rows := rows + [KeyRowOf(Contents(), ids[n])];
      }
    }

    method ListReservationItems(rid: Id) returns (rows: seq<Item>)
      ensures var ids := OrderBy(ItemsOf(items, rid), TypeOrder(items));
              && ItemsInOrder(items, rid, ids)
              && |rows| == |ids| && forall j :: 0 <= j < |ids| ==> ids[j] in items && rows[j] == items[ids[j]]
    {
      ItemsListed(items, rid);
      var ids := OrderBy(ItemsOf(items, rid), TypeOrder(items));
      rows := [];
      for n := 0 to |ids|
        invariant |rows| == n && forall j :: 0 <= j < n ==> ids[j] in items && rows[j] == items[ids[j]]
      {
        assert ids[n] in ids;
        rows := rows + [items[ids[n]]];
      }
    }

    method ListReservationSeats(rid: Id) returns (rows: seq<Hold>)
      ensures var ids := OrderBy(HoldsOf(holds, rid), SeatOrder(holds));
              && HoldsInOrder(holds, rid, ids)
              && |rows| == |ids| && forall j :: 0 <= j < |ids| ==> ids[j] in holds && rows[j] == holds[ids[j]]
    {
      HoldsListed(holds, rid);
      var ids := OrderBy(HoldsOf(holds, rid), SeatOrder(holds));
      rows := [];
      for n := 0 to |ids|
        invariant |rows| == n && forall j :: 0 <= j < n ==> ids[j] in holds && rows[j] == holds[ids[j]]
      {
        assert ids[n] in ids;
        rows := rows + [holds[ids[n]]];
      }
    }

    /** The primary key and uq_reservations_visitor_session_id_idempotency_key are checked before the foreign key. */
    method CreateReservation(rid: Id, header: Reservation) returns (r: Sql<Reservation>)
      requires Valid()
      modifies this`reservations
      ensures Valid()
      ensures r == if rid in old(reservations) || KeyTaken(old(Contents()), header.sessionId, header.key)
                   then UniqueViolation
                   else if header.eventId !in events then Rejected else Row(header)
      ensures reservations == if r.Row? then old(reservations)[rid := header] else old(reservations)
    {
      if rid in reservations || KeyTaken(Contents(), header.sessionId, header.key) { return UniqueViolation; }
      if header.eventId !in events { return Rejected; }
      InsertHeaderKeeps(Contents(), rid, header);
      reservations := reservations[rid := header];
      r := Row(header);
    }

    method CreateReservationItem(iid: Id, item: Item) returns (r: Sql<Item>)
      requires Valid()
      modifies this`items
      ensures Valid()
      ensures r.Row? <==> iid !in old(items) && 0 < item.quantity <= INT32_MAX
                          && item.reservationId in reservations && item.ticketTypeId in ticketTypes
      ensures r.Row? ==> r.value == item && items == old(items)[iid := item]
      ensures !r.Row? ==> items == old(items) && !r.NoRows?
    {
      if !(0 < item.quantity <= INT32_MAX) { return Rejected; }
      if iid in items { return UniqueViolation; }
      if item.reservationId !in reservations || item.ticketTypeId !in ticketTypes { return Rejected; }
      InsertItemKeeps(Contents(), iid, item);
      items := items[iid := item];
      r := Row(item);
    }

    method CreateReservationSeat(hid: Id, hold: Hold) returns (r: Sql<Hold>)
      requires Valid()
      modifies this`holds
      ensures Valid()
      ensures r == if hid in old(holds) || (Active(hold.status) && SeatTaken(old(Contents()), hold.seatId))
                   then UniqueViolation
                   else if hold.reservationId !in reservations || hold.seatId !in seats then Rejected else Row(hold)
      ensures holds == if r.Row? then old(holds)[hid := hold] else old(holds)
    {
      if hid in holds || (Active(hold.status) && SeatTaken(Contents(), hold.seatId)) { return UniqueViolation; }
      if hold.reservationId !in reservations || hold.seatId !in seats { return Rejected; }
      InsertHoldKeeps(Contents(), hid, hold);
      holds := holds[hid := hold];
      r := Row(hold);
    }

    // ---------- deletes, for the reset of stress fixtures ----------

    method ListStressEventIDs(pattern: string) returns (ids: seq<Id>)
      ensures ids == ById(EventsLike(Contents(), pattern))
    {
      ids := ById(EventsLike(Contents(), pattern));
    }

    method DeleteStressReservationSeats(eventIds: seq<Id>)
      requires Valid()
      modifies this`holds
      ensures Valid() && holds == old(holds) - HoldsIn(old(Contents()), ToSet(eventIds))
    {
      DroppedHoldsKeep(Contents(), HoldsIn(Contents(), ToSet(eventIds)));
      holds := holds - HoldsIn(Contents(), ToSet(eventIds));
    }

    method DeleteStressReservationItems(eventIds: seq<Id>)
      requires Valid()
      modifies this`items
      ensures Valid() && items == old(items) - ItemsIn(old(Contents()), ToSet(eventIds))
    {
      DroppedItemsKeep(Contents(), ItemsIn(Contents(), ToSet(eventIds)));
      items := items - ItemsIn(Contents(), ToSet(eventIds));
    }

    /** Items and holds reference reservations ON DELETE CASCADE: what children are left go too. */
    method DeleteStressReservations(eventIds: seq<Id>)
      requires Valid()
      modifies this`reservations, this`items, this`holds
      ensures Valid()
      ensures reservations == old(reservations) - ReservationsIn(old(Contents()), ToSet(eventIds))
      ensures items == old(items) - ItemsIn(old(Contents()), ToSet(eventIds))
      ensures holds == old(holds) - HoldsIn(old(Contents()), ToSet(eventIds))
    {
      var gone, goneItems, goneHolds :=
        ReservationsIn(Contents(), ToSet(eventIds)), ItemsIn(Contents(), ToSet(eventIds)),
        HoldsIn(Contents(), ToSet(eventIds));
      DroppedHeadersKeep(Contents(), ToSet(eventIds));
      reservations, items, holds := reservations - gone, items - goneItems, holds - goneHolds;
    }

    /**
     Ticket types and seats reference events ON DELETE CASCADE; reservations reference events, items ticket
     types and holds seats ON DELETE RESTRICT. None is a violated RESTRICT, and then nothing is deleted.
     */
    method DeleteStressEvents(eventIds: seq<Id>) returns (deleted: Option<nat>)
      requires Valid()
      modifies this`events, this`ticketTypes, this`seats
      ensures Valid()
      ensures deleted == if Restricted(old(Contents()), ToSet(eventIds)) then None
                         else Some(EventCount(old(Contents()), ToSet(eventIds)))
      ensures events == if deleted.Some? then old(events) - ToSet(eventIds) else old(events)
      ensures ticketTypes == if deleted.Some? then old(ticketTypes) - TypesIn(old(Contents()), ToSet(eventIds))
                             else old(ticketTypes)
      ensures seats == if deleted.Some? then old(seats) - SeatsIn(old(Contents()), ToSet(eventIds)) else old(seats)
    {
      hide Constraints, TypesIn, SeatsIn, Restricted, ToSet, EventCount;
      var s, gone := Contents(), ToSet(eventIds);
      if Restricted(s, gone) { return None; }
      DroppedEventsKeep(s, gone);
      events := events - gone;
      ticketTypes := ticketTypes - TypesIn(s, gone);
      seats := seats - SeatsIn(s, gone);
      deleted := Some(EventCount(s, gone));
    }
  }
}
