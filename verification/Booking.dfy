/**
 New reservations: how ReserveQuantity and ReserveSeats answer, replay and change the tables when they run
 alone, and what that means in the states the service can reach. Module Service runs the code against these.
 */
module Booking {
  import opened Schema
  import opened Ordering
  import opened Invariant
  import opened Settlement
  import opened Serial
  import opened Queries
  import opened Lifecycle
  import Runs

  datatype Result<+T> = Ok(value: T) | Err(error: ServiceError)

  // ---------- lookups find exactly the reservation of that key and kind ----------

  lemma LookupQuantityFinds(s: Tables, sessionId: Id, key: string)
    requires Inv(s)
    ensures LookupQuantity(s, sessionId, key).Some? <==> Stored(s, sessionId, key, Quantity)
    ensures LookupQuantity(s, sessionId, key).Some? ==>
              KeyedAs(s, LookupQuantity(s, sessionId, key).value.reservationId, sessionId, key, Quantity)
  {
    var ids := ById(MatchingItems(s, sessionId, key));
    if ids != [] { assert ids[0] in ids; }
    if r :| KeyedAs(s, r, sessionId, key, Quantity) {
      assert HasItem(s, r);
      var i :| i in s.items && s.items[i].reservationId == r;
      assert i in ids;
    }
  }

  lemma LookupSeatsFinds(s: Tables, sessionId: Id, key: string)
    requires Inv(s)
    ensures LookupSeats(s, sessionId, key).Some? <==> Stored(s, sessionId, key, Seats)
    ensures LookupSeats(s, sessionId, key).Some? ==>
              KeyedAs(s, LookupSeats(s, sessionId, key).value.reservationId, sessionId, key, Seats)
  {
    var ids := OrderBy(MatchingHolds(s, sessionId, key), SeatOrder(s.holds));
    if ids != [] { assert ids[0] in ids; }
    if r :| KeyedAs(s, r, sessionId, key, Seats) {
      assert HasHold(s, r);
      var h :| h in s.holds && s.holds[h].reservationId == r;
      assert h in ids;
    }
  }

  /** The quantity answer in stored fields: the header's, and those of the reservation's first item by id. */
  lemma LookupQuantityReads(s: Tables, sessionId: Id, key: string) returns (i: Id)
    requires Inv(s) && LookupQuantity(s, sessionId, key).Some?
    ensures var answer := LookupQuantity(s, sessionId, key).value;
            && answer.reservationId in s.reservations
            && var header := s.reservations[answer.reservationId];
            && header.sessionId == sessionId && header.key == key && header.kind == Quantity == answer.kind
            && answer.status == header.status && answer.expiresAt == header.expiresAt
            && i in s.items && s.items[i].reservationId == answer.reservationId
            && (forall x :: x in s.items && s.items[x].reservationId == answer.reservationId ==> i <= x)
            && answer.ticketTypeId == s.items[i].ticketTypeId && answer.quantity == s.items[i].quantity
  {
    var ids := ById(MatchingItems(s, sessionId, key));
    i := ids[0];
    assert i in ids;
    forall x | x in s.items && s.items[x].reservationId == s.items[i].reservationId ensures i <= x {
      assert x in ids;
    }
  }

  /** The seats answer in stored fields: the header's, and the seat of every hold of the reservation, in order. */
  lemma LookupSeatsReads(s: Tables, sessionId: Id, key: string) returns (ids: seq<Id>)
    requires Inv(s) && LookupSeats(s, sessionId, key).Some?
    ensures var answer := LookupSeats(s, sessionId, key).value;
            && answer.reservationId in s.reservations
            && var header := s.reservations[answer.reservationId];
            && header.sessionId == sessionId && header.key == key && header.kind == Seats == answer.kind
            && answer.status == header.status && answer.expiresAt == header.expiresAt
            && HoldsInOrder(s.holds, answer.reservationId, ids) && |answer.seats| == |ids|
            && forall j :: 0 <= j < |ids| ==> ids[j] in s.holds && answer.seats[j] == s.holds[ids[j]].seatId
  {
    hide SeatOrder, Agrees, Conserved;
    var rid := LookupSeats(s, sessionId, key).value.reservationId;
    MatchingAreAllOf(s, sessionId, key);
    HoldsListed(s.holds, rid);
    ids := OrderBy(HoldsOf(s.holds, rid), SeatOrder(s.holds));
    forall j | 0 <= j < |ids|
      ensures |SeatList(s.holds, ids)| == |ids| && SeatList(s.holds, ids)[j] == s.holds[ids[j]].seatId
    {
      SeatListAt(s.holds, ids, j);
    }
  }

  lemma MatchingAreAllOf(s: Tables, sessionId: Id, key: string)
    requires KeysUnique(s) && LookupSeats(s, sessionId, key).Some?
    ensures var rid := LookupSeats(s, sessionId, key).value.reservationId;
            && KeyedAs(s, rid, sessionId, key, Seats)
            && MatchingHolds(s, sessionId, key) == HoldsOf(s.holds, rid)
  {
    var ids := OrderBy(MatchingHolds(s, sessionId, key), SeatOrder(s.holds));
    assert ids[0] in ids;
    var rid := s.holds[ids[0]].reservationId;
    forall h | h in MatchingHolds(s, sessionId, key) ensures s.holds[h].reservationId == rid {
      assert SameKey(s.reservations[s.holds[h].reservationId], s.reservations[rid]);
    }
  }

  lemma {:induction false} SeatListAt(holds: map<Id, Hold>, ids: seq<Id>, j: nat)
    requires (forall h :: h in ids ==> h in holds) && j < |ids|
    ensures |SeatList(holds, ids)| == |ids| && SeatList(holds, ids)[j] == holds[ids[j]].seatId
  {
    if |ids| > 1 { SeatListAt(holds, ids[..|ids| - 1], if j < |ids| - 1 then j else 0); }
  }

  /** A key that is taken is taken by exactly one of the two kinds, so one of the two lookups answers. */
  lemma TakenIsFound(s: Tables, sessionId: Id, key: string)
    requires Inv(s)
    ensures KeyTaken(s, sessionId, key)
            <==> LookupQuantity(s, sessionId, key).Some? || LookupSeats(s, sessionId, key).Some?
    ensures LookupQuantity(s, sessionId, key).None? || LookupSeats(s, sessionId, key).None?
  {
    hide LookupQuantity, LookupSeats, Conserved, Agrees, ChecksOk, ReferencesOk, ActiveUnique;
    LookupQuantityFinds(s, sessionId, key);
    LookupSeatsFinds(s, sessionId, key);
    if KeyTaken(s, sessionId, key) {
      var r :| r in s.reservations && s.reservations[r].sessionId == sessionId && s.reservations[r].key == key;
      assert KeyedAs(s, r, sessionId, key, s.reservations[r].kind);
    }
    forall q, t | KeyedAs(s, q, sessionId, key, Quantity) && t in s.reservations
      ensures !KeyedAs(s, t, sessionId, key, Seats)
    {
      assert SameKey(s.reservations[q], s.reservations[t]) ==> q == t;
    }
  }

  // ---------- reserving a quantity ----------

  function QuantityAnswerTo(op: Op): QuantityAnswer
    requires op.TakeQuantity?
  {
    QuantityAnswer(op.rid, Reserved, Quantity, op.expiresAt, op.typeId, op.quantity)
  }

  /** How ReserveQuantity takes s to s', with the ids the database generates and the deadline in op. */
  ghost predicate ReservesQuantity(s: Tables, s': Tables, op: Op, reply: Result<QuantityAnswer>)
    requires op.TakeQuantity?
  {
    var known := LookupQuantity(s, op.visitor.sessionId, op.key);
    if known.Some? then s' == s && reply == Ok(known.value)
    else if op.typeId !in s.ticketTypes || !StockFor(s.ticketTypes[op.typeId], op.eventId, op.quantity) then
      s' == s && reply == Err(InsufficientStock)
    else if op.rid in s.reservations || KeyTaken(s, op.visitor.sessionId, op.key) then
      s' == s && reply == Err(IdempotencyKeyConflict)
    else if op.iid in s.items then s' == s && reply == Err(DatabaseError)
    else s' == InsertQuantity(s, op) && reply == Ok(QuantityAnswerTo(op))
  }

  /** After a take, the key is answered with what was taken. */
  lemma QuantityTakenIsAnswered(s: Tables, op: Op)
    requires Inv(s) && op.TakeQuantity? && Legal(s, op)
    ensures LookupQuantity(Apply(s, op), op.visitor.sessionId, op.key) == Some(QuantityAnswerTo(op))
  {
    hide Constraints, Conserved, Agrees, KeyTaken, MatchingItems, StockFor;
    var s' := Apply(s, op);
    OnlyTheNewItemMatches(s, s', op);
    var ids := ById({op.iid});
    assert |{op.iid}| == 1;
    assert ids[0] in ids;
  }

  lemma OnlyTheNewItemMatches(s: Tables, s': Tables, op: Op)
    requires Agrees(s) && op.TakeQuantity? && op.rid !in s.reservations && !KeyTaken(s, op.visitor.sessionId, op.key)
    requires op.typeId in s.ticketTypes && s' == InsertQuantity(s, op)
    ensures MatchingItems(s', op.visitor.sessionId, op.key) == {op.iid}
  {
    forall i | i in s.items ensures !KeyedAs(s', s.items[i].reservationId, op.visitor.sessionId, op.key, Quantity) {
      assert ItemAgrees(s, s.items[i]);
    }
    forall i ensures i in MatchingItems(s', op.visitor.sessionId, op.key) <==> i == op.iid {
      if i != op.iid && i in s'.items { assert s'.items[i] == s.items[i]; }
    }
  }

  /** One counter has grown, and one header and one item are new, as requested; nothing else has changed. */
  ghost predicate QuantityBooked(s: Tables, s': Tables, op: Op)
    requires op.TakeQuantity? && op.typeId in s.ticketTypes
  {
    var t := s.ticketTypes[op.typeId];
    var header := Reservation(op.eventId, op.visitor.sessionId, op.visitor.userId, Reserved, Quantity, op.key,
                              op.expiresAt);
    s' == Tables(s.events, s.ticketTypes[op.typeId := t.(reserved := t.reserved + op.quantity)], s.seats,
                 s.reservations[op.rid := header],
                 s.items[op.iid := Item(op.rid, op.typeId, op.quantity, Reserved)], s.holds)
  }

  /**
   From a reachable state, with fresh ids: a key stored by a quantity request is answered as recorded; otherwise
   short stock is refused, then a key stored by a seats request; and what is left is booked as requested.
   */
  lemma ReserveQuantityMeaning(s: Tables, s': Tables, op: Op, reply: Result<QuantityAnswer>)
    requires Inv(s) && op.TakeQuantity? && 0 < op.quantity <= INT32_MAX && ReservesQuantity(s, s', op, reply)
    requires op.rid !in s.reservations && op.iid !in s.items
    ensures Inv(s')
    ensures s' == if Legal(s, op) then Apply(s, op) else s
    ensures reply.Ok? ==> LookupQuantity(s', op.visitor.sessionId, op.key) == Some(reply.value)
    ensures var known, other := Stored(s, op.visitor.sessionId, op.key, Quantity),
                                Stored(s, op.visitor.sessionId, op.key, Seats);
            var stocked := InStock(s, op.typeId, op.eventId, op.quantity);
            && (reply == Err(InsufficientStock) <==> !known && !stocked)
            && (reply == Err(IdempotencyKeyConflict) <==> stocked && other)
            && (reply.Ok? <==> known || (stocked && !other))
            && (known || other || !stocked ==> s' == s)
            && (stocked && !known && !other ==>
                  && QuantityBooked(s, s', op)
                  && reply.value == QuantityAnswer(op.rid, Reserved, Quantity, op.expiresAt, op.typeId, op.quantity))
  {
    hide Inv, LookupQuantity, LookupSeats, Stored;
    TakenIsFound(s, op.visitor.sessionId, op.key);
    LookupSeatsFinds(s, op.visitor.sessionId, op.key);
    LookupQuantityFinds(s, op.visitor.sessionId, op.key);
    if Legal(s, op) {
      QuantityTakenIsAnswered(s, op);
      ApplyKeepsInv(s, op);
    }
  }

  // ---------- reserving seats ----------

  /** The rows the insert loop has written after n seats; the database generates newIds(0), newIds(1), ... */
  function RowsFor(rid: Id, seatIds: seq<Id>, expiresAt: Time, newIds: nat -> Id, n: nat): map<Id, Hold>
    requires n <= |seatIds|
  {
    if n == 0 then map[]
    else
      var hold := Hold(rid, seatIds[n - 1], Reserved, expiresAt);
      RowsFor(rid, seatIds, expiresAt, newIds, n - 1)[newIds(n - 1) := hold]
  }

  ghost function Swept(s: Tables, seatIds: seq<Id>, listedAt: Time): Tables {
    var ids := OverdueHolders(s, ToSet(seatIds), listedAt);
    s.(holds := MarkedHolds(s.holds, ids, Expired), reservations := MarkedHeaders(s.reservations, ids, Expired))
  }

  predicate SeatsExist(s: Tables, eventId: Id, seatIds: seq<Id>) {
    forall seat :: seat in seatIds ==> seat in s.seats && s.seats[seat].eventId == eventId
  }

  /** No insert of the first n meets a key of the primary index or of uq_active_reservation_seat. */
  ghost predicate Insertable(s: Tables, seatIds: seq<Id>, newIds: nat -> Id, n: nat)
    requires n <= |seatIds|
  {
    && (forall j :: 0 <= j < n ==> newIds(j) !in s.holds && !SeatTaken(s, seatIds[j]))
    && (forall j, k :: 0 <= j < k < n ==> newIds(j) != newIds(k))
  }

  datatype SeatsCall = SeatsCall(
    eventId: Id, seatIds: seq<Id>, visitor: Visitor, key: string, expiresAt: Time, listedAt: Time, rid: Id,
    newIds: nat -> Id)
  {
    function Rows(n: nat): map<Id, Hold>
      requires n <= |seatIds|
    {
      RowsFor(rid, seatIds, expiresAt, newIds, n)
    }

    function Op(): Op {
      TakeSeats(rid, Rows(|seatIds|), eventId, visitor, key, expiresAt, listedAt)
    }

    function Header(): Reservation {
      NewHeader(eventId, visitor, Seats, key, expiresAt)
    }
  }

  /** The tables when the header and the first n rows have been inserted. */
  ghost function Inserted(s: Tables, call: SeatsCall, n: nat): Tables
    requires n <= |call.seatIds|
  {
    var swept := Swept(s, call.seatIds, call.listedAt);
    swept.(reservations := swept.reservations[call.rid := call.Header()], holds := swept.holds + call.Rows(n))
  }

  function SeatsAnswerTo(call: SeatsCall): SeatsAnswer {
    SeatsAnswer(call.rid, Reserved, Seats, call.expiresAt, call.seatIds)
  }

  /** How ReserveSeats takes s to s'. */
  ghost predicate ReservesSeats(s: Tables, s': Tables, call: SeatsCall, reply: Result<SeatsAnswer>) {
    var known := LookupSeats(s, call.visitor.sessionId, call.key);
    if known.Some? then s' == s && reply == Ok(known.value)
    else if !SeatsExist(s, call.eventId, call.seatIds) then s' == s && reply == Err(SeatsNotFound)
    else if call.rid in s.reservations || KeyTaken(s, call.visitor.sessionId, call.key) then
      s' == s && reply == Err(IdempotencyKeyConflict)
    else if !Insertable(Swept(s, call.seatIds, call.listedAt), call.seatIds, call.newIds, |call.seatIds|) then
      s' == s && reply == Err(SeatUnavailable)
    else s' == Inserted(s, call, |call.seatIds|) && reply == Ok(SeatsAnswerTo(call))
  }

  /** Ids the database has not used. */
  ghost predicate FreshIds(s: Tables, call: SeatsCall) {
    && call.rid !in s.reservations
    && (forall j :: 0 <= j < |call.seatIds| ==> call.newIds(j) !in s.holds)
    && (forall j, k :: 0 <= j < k < |call.seatIds| ==> call.newIds(j) != call.newIds(k))
  }

  lemma {:induction false} RowsForAt(call: SeatsCall, n: nat)
    requires n <= |call.seatIds|
    requires forall j, k :: 0 <= j < k < |call.seatIds| ==> call.newIds(j) != call.newIds(k)
    ensures forall j :: 0 <= j < n ==>
              call.newIds(j) in call.Rows(n)
              && call.Rows(n)[call.newIds(j)] == Hold(call.rid, call.seatIds[j], Reserved, call.expiresAt)
    ensures forall h :: h in call.Rows(n) ==> exists j :: 0 <= j < n && call.newIds(j) == h
  {
    if n > 0 {
      RowsForAt(call, n - 1);
      assert call.Rows(n)
             == call.Rows(n - 1)[call.newIds(n - 1) := Hold(call.rid, call.seatIds[n - 1], Reserved, call.expiresAt)];
      forall h | h in call.Rows(n) ensures exists j :: 0 <= j < n && call.newIds(j) == h {
        if h != call.newIds(n - 1) { assert h in call.Rows(n - 1); }
      }
    }
  }

  /** The made rows, in the terms of RowsFit: they are new, ... */
  lemma RowsAreNew(s: Tables, call: SeatsCall)
    requires FreshIds(s, call) && call.seatIds != []
    ensures call.Rows(|call.seatIds|).Keys !! s.holds.Keys
    ensures exists h :: h in call.Rows(|call.seatIds|)
  {
    hide RowsFor;
    var rows := call.Rows(|call.seatIds|);
    RowsForAt(call, |call.seatIds|);
    assert call.newIds(0) in rows;
    forall h | h in rows ensures h !in s.holds {
      var j :| 0 <= j < |call.seatIds| && call.newIds(j) == h;
    }
  }

  /** ... each reserves one of the requested seats, ... */
  lemma RowsHoldSeats(call: SeatsCall)
    requires forall j, k :: 0 <= j < k < |call.seatIds| ==> call.newIds(j) != call.newIds(k)
    ensures forall h :: h in call.Rows(|call.seatIds|) ==>
              var row := call.Rows(|call.seatIds|)[h];
              row == Hold(call.rid, row.seatId, Reserved, call.expiresAt) && row.seatId in call.seatIds
  {
    hide RowsFor;
    var rows := call.Rows(|call.seatIds|);
    RowsForAt(call, |call.seatIds|);
    forall h | h in rows
      ensures rows[h] == Hold(call.rid, rows[h].seatId, Reserved, call.expiresAt) && rows[h].seatId in call.seatIds
    {
      var j :| 0 <= j < |call.seatIds| && call.newIds(j) == h;
    }
  }

  /** ... no two of them the same one, ... */
  lemma RowsHoldDifferentSeats(call: SeatsCall, g: Id, h: Id)
    requires forall j, k :: 0 <= j < k < |call.seatIds| ==> call.newIds(j) != call.newIds(k)
    requires Ascending(call.seatIds)
    requires g in call.Rows(|call.seatIds|) && h in call.Rows(|call.seatIds|)
    requires call.Rows(|call.seatIds|)[g].seatId == call.Rows(|call.seatIds|)[h].seatId
    ensures g == h
  {
    hide RowsFor;
    RowsForAt(call, |call.seatIds|);
    var j :| 0 <= j < |call.seatIds| && call.newIds(j) == g;
    var k :| 0 <= k < |call.seatIds| && call.newIds(k) == h;
    assert call.seatIds[j] == call.seatIds[k];
  }

  /** ... and together all of them. */
  lemma RowsHoldAllSeats(call: SeatsCall)
    requires forall j, k :: 0 <= j < k < |call.seatIds| ==> call.newIds(j) != call.newIds(k)
    ensures SeatsOf(call.Rows(|call.seatIds|)) == ToSet(call.seatIds)
  {
    hide RowsFor;
    var rows := call.Rows(|call.seatIds|);
    RowsForAt(call, |call.seatIds|);
    RowsHoldSeats(call);
    forall seat | seat in call.seatIds ensures seat in SeatsOf(rows) {
      var j :| 0 <= j < |call.seatIds| && call.seatIds[j] == seat;
      assert call.newIds(j) in rows && rows[call.newIds(j)].seatId == seat;
    }
  }

  lemma RowsForFit(s: Tables, call: SeatsCall)
    requires FreshIds(s, call) && SeatsExist(s, call.eventId, call.seatIds)
    requires call.seatIds != [] && Ascending(call.seatIds)
    ensures RowsFit(s, call.rid, call.Rows(|call.seatIds|), call.eventId, call.expiresAt)
    ensures SeatsOf(call.Rows(|call.seatIds|)) == ToSet(call.seatIds)
  {
    hide RowsFor, SeatsOf, ToSet, Ascending;
    var rows := call.Rows(|call.seatIds|);
    RowsAreNew(s, call);
    RowsHoldSeats(call);
    RowsHoldAllSeats(call);
    forall g, h | g in rows && h in rows && rows[g].seatId == rows[h].seatId ensures g == h {
      RowsHoldDifferentSeats(call, g, h);
    }
  }

  lemma SweptSettles(s: Tables, seatIds: seq<Id>, listedAt: Time)
    requires Inv(s)
    ensures Swept(s, seatIds, listedAt) == Settle(s, OverdueHolders(s, ToSet(seatIds), listedAt), Expired)
  {
    OverdueHoldersAreSeats(s, ToSet(seatIds), listedAt);
    SweepSettles(s, OverdueHolders(s, ToSet(seatIds), listedAt));
  }

  /** A hold the sweep does not expire, because it is confirmed or not yet due, keeps its seat taken. */
  lemma SweepSpares(s: Tables, seats: set<Id>, listedAt: Time, h: Id)
    requires Inv(s) && h in s.holds && Active(s.holds[h].status)
    requires !(s.holds[h].status == Reserved && s.holds[h].expiresAt <= listedAt)
    ensures MarkHold(s.holds[h], OverdueHolders(s, seats, listedAt), Expired) == s.holds[h]
  {
    assert HoldAgrees(s, s.holds[h]);
    if s.holds[h].reservationId in OverdueHolders(s, seats, listedAt) {
      var g :| g in s.holds && s.holds[g].seatId in seats && s.holds[g].status == Reserved
        && s.holds[g].expiresAt <= listedAt
               && s.holds[g].reservationId == s.holds[h].reservationId;
      assert HoldAgrees(s, s.holds[g]);
    }
  }

  /** After the sweep the requested seats can be inserted exactly when they were bookable before it. */
  lemma InsertableIffBookable(s: Tables, call: SeatsCall)
    requires Inv(s) && FreshIds(s, call)
    ensures Insertable(Swept(s, call.seatIds, call.listedAt), call.seatIds, call.newIds, |call.seatIds|)
            <==> Bookable(s, ToSet(call.seatIds), call.listedAt)
  {
    SweptKeepsIds(s, call);
    if Bookable(s, ToSet(call.seatIds), call.listedAt) {
      BookableIsFree(s, call);
    } else {
      var h :| h in s.holds && s.holds[h].seatId in ToSet(call.seatIds) && Active(s.holds[h].status)
               && !(s.holds[h].status == Reserved && s.holds[h].expiresAt <= call.listedAt);
      SparedIsTaken(s, call, h);
      var j :| 0 <= j < |call.seatIds| && call.seatIds[j] == s.holds[h].seatId;
    }
  }

  lemma SweptKeepsIds(s: Tables, call: SeatsCall)
    ensures Swept(s, call.seatIds, call.listedAt).holds.Keys == s.holds.Keys
  {
  }

  lemma BookableIsFree(s: Tables, call: SeatsCall)
    requires Inv(s) && Bookable(s, ToSet(call.seatIds), call.listedAt)
    ensures forall j :: 0 <= j < |call.seatIds| ==> !SeatTaken(Swept(s, call.seatIds, call.listedAt), call.seatIds[j])
  {
    hide Inv, Bookable, Swept, Settle, OverdueHolders;
    SweptSettles(s, call.seatIds, call.listedAt);
    SweepFrees(s, ToSet(call.seatIds), call.listedAt);
    forall j | 0 <= j < |call.seatIds| ensures !SeatTaken(Swept(s, call.seatIds, call.listedAt), call.seatIds[j]) {
      assert call.seatIds[j] in ToSet(call.seatIds);
    }
  }

  lemma SparedIsTaken(s: Tables, call: SeatsCall, h: Id)
    requires Inv(s) && h in s.holds && Active(s.holds[h].status)
    requires !(s.holds[h].status == Reserved && s.holds[h].expiresAt <= call.listedAt)
    ensures SeatTaken(Swept(s, call.seatIds, call.listedAt), s.holds[h].seatId)
  {
    hide Inv, OverdueHolders;
    SweepSpares(s, ToSet(call.seatIds), call.listedAt, h);
    assert ActiveOn(Swept(s, call.seatIds, call.listedAt), h, s.holds[h].seatId);
  }

  // ---------- the answer to a retry ----------

  lemma {:induction false} SeatListIs(holds: map<Id, Hold>, seatIds: seq<Id>, ids: seq<Id>, n: nat)
    requires n <= |seatIds| && |ids| == n
    requires forall j :: 0 <= j < n ==> ids[j] in holds && holds[ids[j]].seatId == seatIds[j]
    ensures SeatList(holds, ids) == seatIds[..n]
  {
    if n > 0 {
      SeatListIs(holds, seatIds, ids[..n - 1], n - 1);
      assert seatIds[..n] == seatIds[..n - 1] + [seatIds[n - 1]];
    }
  }

  /** Each made row holds its own seat, and there are no others. */
  ghost predicate OneRowEach(rows: map<Id, Hold>, seatIds: seq<Id>, made: seq<Id>) {
    && |made| == |seatIds|
    && (forall j :: 0 <= j < |made| ==> made[j] in rows && rows[made[j]].seatId == seatIds[j])
    && (forall h :: h in rows <==> h in made)
  }

  lemma RowsListed(rows: map<Id, Hold>, seatIds: seq<Id>, made: seq<Id>, holds: map<Id, Hold>)
    requires OneRowEach(rows, seatIds, made) && Ascending(seatIds)
    requires forall h :: h in rows ==> h in holds && holds[h] == rows[h]
    ensures var ids := OrderBy(rows.Keys, SeatOrder(holds));
            ids == made && (forall h :: h in ids ==> h in holds) && SeatList(holds, ids) == seatIds
  {
    hide OrderBy, SeatList, Listing;
    MadeIsListing(rows, seatIds, made, holds);
    ListingUnique(SeatOrder(holds), SeatOrder(holds), rows.Keys, OrderBy(rows.Keys, SeatOrder(holds)), made);
    SeatListIs(holds, seatIds, made, |made|);
    assert seatIds[..|made|] == seatIds;
  }

  lemma MadeIsListing(rows: map<Id, Hold>, seatIds: seq<Id>, made: seq<Id>, holds: map<Id, Hold>)
    requires OneRowEach(rows, seatIds, made) && Ascending(seatIds)
    requires forall h :: h in rows ==> h in holds && holds[h] == rows[h]
    ensures Listing(SeatOrder(holds), rows.Keys, made)
  {
    forall j, k | 0 <= j < k < |made| ensures Before(SeatOrder(holds), made[j], made[k]) {
      assert made[j] in rows && made[k] in rows && seatIds[j] < seatIds[k];
    }
  }

  function MadeIds(call: SeatsCall): seq<Id> {
    seq(|call.seatIds|, j requires 0 <= j => call.newIds(j))
  }

  lemma RowsAreOneEach(call: SeatsCall)
    requires forall j, k :: 0 <= j < k < |call.seatIds| ==> call.newIds(j) != call.newIds(k)
    ensures OneRowEach(call.Rows(|call.seatIds|), call.seatIds, MadeIds(call))
    ensures forall h :: h in call.Rows(|call.seatIds|) ==> call.Rows(|call.seatIds|)[h].reservationId == call.rid
  {
    var rows, made := call.Rows(|call.seatIds|), MadeIds(call);
    RowsForAt(call, |call.seatIds|);
    forall h | h in rows ensures h in made && rows[h].reservationId == call.rid {
      var j :| 0 <= j < |call.seatIds| && call.newIds(j) == h;
      assert made[j] == h;
    }
  }

  /** The holds under a key that was free are the rows just inserted. */
  lemma OnlyTheNewHoldsMatch(s: Tables, s': Tables, rid: Id, header: Reservation, rows: map<Id, Hold>)
    requires Agrees(s) && !KeyTaken(s, header.sessionId, header.key) && header.kind == Seats
    requires forall h :: h in rows ==> rows[h].reservationId == rid
    requires rid !in s.reservations
    requires s' == s.(reservations := s.reservations[rid := header], holds := s.holds + rows)
    ensures MatchingHolds(s', header.sessionId, header.key) == rows.Keys
  {
    forall h | h in s.holds ensures !KeyedAs(s', s.holds[h].reservationId, header.sessionId, header.key, Seats) {
      assert HoldAgrees(s, s.holds[h]);
    }
    var found := MatchingHolds(s', header.sessionId, header.key);
    forall h ensures h in found <==> h in rows.Keys {
      if h !in rows && h in s'.holds { assert s'.holds[h] == s.holds[h]; }
    }
  }

  /** After a take, the key is answered with the seats that were asked for, in order. */
  lemma SeatsTakenAreAnswered(s: Tables, s': Tables, call: SeatsCall)
    requires Agrees(s) && FreshIds(s, call) && Ascending(call.seatIds) && call.seatIds != []
    requires !KeyTaken(s, call.visitor.sessionId, call.key)
    requires s' == s.(reservations := s.reservations[call.rid := call.Header()],
                      holds := s.holds + call.Rows(|call.seatIds|))
    ensures LookupSeats(s', call.visitor.sessionId, call.key) == Some(SeatsAnswerTo(call))
  {
    hide Agrees, KeyTaken, SeatList, SeatOrder, MatchingHolds, Ascending, RowsFor;
    var rows := call.Rows(|call.seatIds|);
    RowsAreOneEach(call);
    OnlyTheNewHoldsMatch(s, s', call.rid, call.Header(), rows);
    RowsListed(rows, call.seatIds, MadeIds(call), s'.holds);
    assert MadeIds(call)[0] in rows;
  }

  lemma InsertedIsApplied(s: Tables, call: SeatsCall)
    requires Inv(s) && FreshIds(s, call) && call.seatIds != [] && Ascending(call.seatIds)
    requires SeatsExist(s, call.eventId, call.seatIds) && !KeyTaken(s, call.visitor.sessionId, call.key)
    ensures Legal(s, call.Op()) <==> Bookable(s, ToSet(call.seatIds), call.listedAt)
    ensures Legal(s, call.Op()) ==> Inserted(s, call, |call.seatIds|) == Apply(s, call.Op())
  {
    hide Bookable, Inv, SeatsExist, KeyTaken, RowsFit, SeatsOf, Swept, Settle, OverdueHolders, RowsFor;
    RowsForFit(s, call);
    SweptSettles(s, call.seatIds, call.listedAt);
  }

  lemma InsertedIsAnswered(s: Tables, call: SeatsCall)
    requires Inv(s) && FreshIds(s, call) && call.seatIds != [] && Ascending(call.seatIds)
    requires !KeyTaken(s, call.visitor.sessionId, call.key)
    ensures LookupSeats(Inserted(s, call, |call.seatIds|), call.visitor.sessionId, call.key)
            == Some(SeatsAnswerTo(call))
  {
    hide Constraints, Conserved, KeyTaken, OverdueHolders, RowsFor, LookupSeats;
    SweptSettles(s, call.seatIds, call.listedAt);
    var rs := OverdueHolders(s, ToSet(call.seatIds), call.listedAt);
    SettleKeepsAgreement(s, rs, Expired);
    KeyStaysFree(s, rs, call.visitor.sessionId, call.key);
    SeatsTakenAreAnswered(Swept(s, call.seatIds, call.listedAt), Inserted(s, call, |call.seatIds|), call);
  }

  /** A requested seat is held by r, reserved and due. */
  ghost predicate HoldsOverdue(s: Tables, r: Id, call: SeatsCall) {
    exists h :: h in s.holds && HeldPast(s.holds[h], r, call.seatIds, call.listedAt)
  }

  ghost predicate HeadersAfter(s: Tables, s': Tables, call: SeatsCall) {
    && s'.reservations.Keys == s.reservations.Keys + {call.rid}
    && s'.reservations[call.rid] == Reservation(call.eventId, call.visitor.sessionId, call.visitor.userId, Reserved,
                                                Seats, call.key, call.expiresAt)
    && (forall r :: r in s.reservations ==>
          s'.reservations[r]
          == if HoldsOverdue(s, r, call) then s.reservations[r].(status := Expired) else s.reservations[r])
  }

  ghost predicate HoldsAfter(s: Tables, s': Tables, call: SeatsCall) {
    && (forall h :: h in s'.holds <==> h in s.holds || exists j :: 0 <= j < |call.seatIds| && h == call.newIds(j))
    && (forall j :: 0 <= j < |call.seatIds| ==>
          call.newIds(j) in s'.holds
          && s'.holds[call.newIds(j)] == Hold(call.rid, call.seatIds[j], Reserved, call.expiresAt))
    && (forall h :: h in s.holds ==>
          h in s'.holds
          && s'.holds[h]
             == if HoldsOverdue(s, s.holds[h].reservationId, call) then s.holds[h].(status := Expired) else s.holds[h])
  }

  /**
   The holders of due holds on the requested seats are expired with all their holds, one header and one hold per
   seat are new, as requested; nothing else has changed.
   */
  ghost predicate SeatsBooked(s: Tables, s': Tables, call: SeatsCall) {
    && s'.events == s.events && s'.ticketTypes == s.ticketTypes && s'.seats == s.seats && s'.items == s.items
    && HeadersAfter(s, s', call) && HoldsAfter(s, s', call)
  }

  lemma HoldersOverdue(s: Tables, r: Id, call: SeatsCall)
    ensures r in OverdueHolders(s, ToSet(call.seatIds), call.listedAt) <==> HoldsOverdue(s, r, call)
  {
    OverdueHoldersAre(s, call.seatIds, call.listedAt);
  }

  lemma InsertedHeaders(s: Tables, call: SeatsCall)
    requires Agrees(s) && FreshIds(s, call)
    ensures HeadersAfter(s, Inserted(s, call, |call.seatIds|), call)
  {
    hide HoldsOverdue, OverdueHolders, RowsFor, MarkedHolds;
    var rs := OverdueHolders(s, ToSet(call.seatIds), call.listedAt);
    Runs.HoldersReserved(s, ToSet(call.seatIds), call.listedAt);
    forall r | r in s.reservations ensures r in rs <==> HoldsOverdue(s, r, call) { HoldersOverdue(s, r, call); }
  }

  lemma SweptHolds(s: Tables, call: SeatsCall, h: Id)
    requires Agrees(s) && h in s.holds
    ensures var swept := Swept(s, call.seatIds, call.listedAt);
            && h in swept.holds
            && swept.holds[h]
               == if HoldsOverdue(s, s.holds[h].reservationId, call) then s.holds[h].(status := Expired) else s.holds[h]
  {
    hide HoldsOverdue, OverdueHolders, MarkedHeaders;
    Runs.HoldersReserved(s, ToSet(call.seatIds), call.listedAt);
    HoldersOverdue(s, s.holds[h].reservationId, call);
    assert HoldAgrees(s, s.holds[h]);
  }

  lemma InsertedHolds(s: Tables, call: SeatsCall)
    requires Agrees(s) && FreshIds(s, call)
    ensures HoldsAfter(s, Inserted(s, call, |call.seatIds|), call)
  {
    hide HoldsOverdue, Swept, RowsFor, Agrees;
    RowsForAt(call, |call.seatIds|);
    SweptKeepsIds(s, call);
    forall h | h in s.holds
      ensures h !in call.Rows(|call.seatIds|)
      ensures var swept := Swept(s, call.seatIds, call.listedAt);
              && h in swept.holds
              && swept.holds[h]
                 == if HoldsOverdue(s, s.holds[h].reservationId, call) then s.holds[h].(status := Expired)
                    else s.holds[h]
    {
      SweptHolds(s, call, h);
    }
  }

  /** The request's seats are all the event's, and none is confirmed or reserved by somebody not yet due. */
  ghost predicate AllFree(s: Tables, call: SeatsCall) {
    forall h :: h in s.holds && s.holds[h].seatId in call.seatIds ==>
      || s.holds[h].status == Cancelled || s.holds[h].status == Expired
      || (s.holds[h].status == Reserved && s.holds[h].expiresAt <= call.listedAt)
  }

  lemma BookableIsFreeNow(s: Tables, call: SeatsCall)
    ensures Bookable(s, ToSet(call.seatIds), call.listedAt) <==> AllFree(s, call)
  {
  }

  /**
   From a reachable state, with fresh ids: a key stored by a seats request is answered as recorded; otherwise a
   missing seat is refused, then a key stored by a quantity request, then a seat with a confirmed hold or a reserved
   one that is not yet due; and what is left is booked as requested.
   */
  lemma ReserveSeatsMeaning(s: Tables, s': Tables, call: SeatsCall, reply: Result<SeatsAnswer>)
    requires Inv(s) && FreshIds(s, call) && call.seatIds != [] && Ascending(call.seatIds)
    requires ReservesSeats(s, s', call, reply)
    ensures Inv(s')
    ensures s' == if Legal(s, call.Op()) then Apply(s, call.Op()) else s
    ensures reply.Ok? ==> LookupSeats(s', call.visitor.sessionId, call.key) == Some(reply.value)
    ensures var known, other := Stored(s, call.visitor.sessionId, call.key, Seats),
                                Stored(s, call.visitor.sessionId, call.key, Quantity);
            var found := forall seat :: seat in call.seatIds ==>
                           seat in s.seats && s.seats[seat].eventId == call.eventId;
            var free := AllFree(s, call);
            && (reply == Err(SeatsNotFound) <==> !known && !found)
            && (reply == Err(IdempotencyKeyConflict) <==> found && other)
            && (reply == Err(SeatUnavailable) <==> found && !known && !other && !free)
            && (reply.Ok? <==> known || (found && !other && free))
            && (known || other || !found || !free ==> s' == s)
            && (found && !known && !other && free ==>
                  && SeatsBooked(s, s', call)
                  && reply.value == SeatsAnswer(call.rid, Reserved, Seats, call.expiresAt, call.seatIds))
  {
    hide LookupQuantity, LookupSeats, Insertable, Bookable, Inserted, Swept, Constraints, Conserved, Agrees, Stored;
    hide RowsFit, AllFree, HeadersAfter, HoldsAfter;
    TakenIsFound(s, call.visitor.sessionId, call.key);
    LookupQuantityFinds(s, call.visitor.sessionId, call.key);
    LookupSeatsFinds(s, call.visitor.sessionId, call.key);
    InsertableIffBookable(s, call);
    BookableIsFreeNow(s, call);
    if SeatsExist(s, call.eventId, call.seatIds) && !KeyTaken(s, call.visitor.sessionId, call.key) {
      InsertedIsApplied(s, call);
      InsertedIsAnswered(s, call);
      InsertedIsBooked(s, call);
    }
    if Legal(s, call.Op()) {
      LegalSeatsExist(s, call);
      ApplyKeepsInv(s, call.Op());
    }
  }

  lemma InsertedIsBooked(s: Tables, call: SeatsCall)
    requires Inv(s) && FreshIds(s, call)
    ensures SeatsBooked(s, Inserted(s, call, |call.seatIds|), call)
  {
    hide HeadersAfter, HoldsAfter;
    InsertedHeaders(s, call);
    InsertedHolds(s, call);
  }

  lemma LegalSeatsExist(s: Tables, call: SeatsCall)
    requires FreshIds(s, call) && Legal(s, call.Op())
    ensures SeatsExist(s, call.eventId, call.seatIds)
  {
    RowsForAt(call, |call.seatIds|);
    forall seat | seat in call.seatIds ensures seat in s.seats && s.seats[seat].eventId == call.eventId {
      var j :| 0 <= j < |call.seatIds| && call.seatIds[j] == seat;
      assert call.newIds(j) in call.Rows(|call.seatIds|);
    }
  }
}
