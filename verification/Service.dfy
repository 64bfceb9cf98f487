/**
 The reservation service as written: transaction bodies over SQL statements, committed or rolled back as a
 whole. Clock readings and generated ids are inputs. Each operation is proved against Lifecycle and Booking.
 */
module Service {
  import opened Schema
  import opened Ordering
  import opened Invariant
  import opened Settlement
  import opened Serial
  import opened Queries
  import opened Lifecycle
  import opened StockLoops
  import opened Booking
  import opened Uuid
  import opened Input

  /** How a transaction body ends. Anything but Commit rolls back. */
  datatype TxResult<+T> = Commit(value: T) | Abort(error: ServiceError) | ReplayRequired

  // ---------- locking all requested seats ----------

  /** The requested seats all exist exactly when as many were locked, and then they come back in request order. */
  lemma LockedAll(s: Tables, eventId: Id, seatIds: seq<Id>)
    requires Ascending(seatIds)
    ensures var locked := ById(EventSeats(s, eventId, seatIds));
            && (forall id :: id in locked ==> id in seatIds)
            && (SeatsExist(s, eventId, seatIds) <==>
                |locked| == |seatIds| && forall id :: id in seatIds ==> id in locked)
            && (SeatsExist(s, eventId, seatIds) ==> locked == seatIds)
  {
    var locked := ById(EventSeats(s, eventId, seatIds));
    if SeatsExist(s, eventId, seatIds) {
      var key: Id -> int := i => 0;
      forall j, k | 0 <= j < k < |seatIds| ensures Before(key, seatIds[j], seatIds[k]) { }
      forall j, k | 0 <= j < k < |locked| ensures Before(key, locked[j], locked[k]) { }
      ListingUnique(key, key, EventSeats(s, eventId, seatIds), locked, seatIds);
    }
  }

  // ---------- the insert loop of ReserveSeats ----------

  lemma SweepNone(s: Tables, seatIds: seq<Id>, listedAt: Time)
    requires OverdueHolders(s, ToSet(seatIds), listedAt) == {}
    ensures Swept(s, seatIds, listedAt) == s
  {
    assert MarkedHolds(s.holds, {}, Expired) == s.holds;
    assert MarkedHeaders(s.reservations, {}, Expired) == s.reservations;
  }

  lemma SweptKeys(s: Tables, call: SeatsCall)
    ensures KeyTaken(Swept(s, call.seatIds, call.listedAt), call.visitor.sessionId, call.key)
            <==> KeyTaken(s, call.visitor.sessionId, call.key)
    ensures Swept(s, call.seatIds, call.listedAt).reservations.Keys == s.reservations.Keys
  {
    var swept := Swept(s, call.seatIds, call.listedAt);
    if KeyTaken(s, call.visitor.sessionId, call.key) {
      var r :| r in s.reservations && s.reservations[r].sessionId == call.visitor.sessionId
        && s.reservations[r].key == call.key;
      assert r in swept.reservations && swept.reservations[r].key == call.key;
    }
  }

  lemma InsertStart(s: Tables, call: SeatsCall)
    ensures var swept := Swept(s, call.seatIds, call.listedAt);
            Inserted(s, call, 0) == swept.(reservations := swept.reservations[call.rid := call.Header()])
  {
    var swept := Swept(s, call.seatIds, call.listedAt);
    assert swept.holds + map[] == swept.holds;
  }

  /** The n-th insert violates a unique index exactly when the seats as a whole cannot be inserted. */
  lemma InsertStep(s: Tables, call: SeatsCall, n: nat)
    requires n < |call.seatIds| && Ascending(call.seatIds)
    requires Insertable(Swept(s, call.seatIds, call.listedAt), call.seatIds, call.newIds, n)
    ensures var swept, now := Swept(s, call.seatIds, call.listedAt), Inserted(s, call, n);
            (call.newIds(n) in now.holds || SeatTaken(now, call.seatIds[n]))
            <==> !Insertable(swept, call.seatIds, call.newIds, n + 1)
    ensures var now := Inserted(s, call, n);
            Inserted(s, call, n + 1)
            == now.(holds := now.holds[call.newIds(n) := Hold(call.rid, call.seatIds[n], Reserved, call.expiresAt)])
  {
    hide Swept, RowsFor, SeatTaken;
    var swept := Swept(s, call.seatIds, call.listedAt);
    RowsSoFar(call, n);
    NothingAddedOn(swept, Inserted(s, call, n), call.Rows(n), call.seatIds[n]);
    OneMoreRow(call, n);
    InsertLast(swept.holds, call.Rows(n), call.newIds(n), Hold(call.rid, call.seatIds[n], Reserved, call.expiresAt));
  }

  lemma OneMoreRow(call: SeatsCall, n: nat)
    requires n < |call.seatIds|
    ensures call.Rows(n + 1)
            == call.Rows(n)[call.newIds(n) := Hold(call.rid, call.seatIds[n], Reserved, call.expiresAt)]
  {
  }

  lemma InsertLast(a: map<Id, Hold>, b: map<Id, Hold>, k: Id, hold: Hold)
    ensures (a + b)[k := hold] == a + b[k := hold]
  {
  }

  lemma InsertableNone(s: Tables, call: SeatsCall)
    ensures Insertable(s, call.seatIds, call.newIds, 0)
  {
  }

  lemma InsertableShrinks(s: Tables, call: SeatsCall, n: nat)
    requires n <= |call.seatIds|
    ensures Insertable(s, call.seatIds, call.newIds, |call.seatIds|) ==> Insertable(s, call.seatIds, call.newIds, n)
  {
  }

  lemma SweptKeepsSeats(s: Tables, call: SeatsCall)
    ensures var swept := Swept(s, call.seatIds, call.listedAt); swept.seats == s.seats && swept.events == s.events
  {
  }

  lemma SeatsEvent(s: Tables, call: SeatsCall)
    requires Constraints(s) && SeatsExist(s, call.eventId, call.seatIds) && call.seatIds != []
    ensures call.eventId in s.events
  {
    assert call.seatIds[0] in call.seatIds;
  }

  lemma {:induction false} RowsSoFar(call: SeatsCall, n: nat)
    requires n < |call.seatIds| && Ascending(call.seatIds)
    requires forall j, k :: 0 <= j < k < n ==> call.newIds(j) != call.newIds(k)
    ensures forall h :: h in call.Rows(n) <==> exists j :: 0 <= j < n && call.newIds(j) == h
    ensures forall h :: h in call.Rows(n) ==> call.Rows(n)[h].seatId < call.seatIds[n]
  {
    if n > 0 {
      RowsSoFar(call, n - 1);
      assert call.Rows(n)
             == call.Rows(n - 1)[call.newIds(n - 1) := Hold(call.rid, call.seatIds[n - 1], Reserved, call.expiresAt)];
      forall h ensures h in call.Rows(n) <==> exists j :: 0 <= j < n && call.newIds(j) == h {
        assert h in call.Rows(n) <==> h in call.Rows(n - 1) || h == call.newIds(n - 1);
      }
    }
  }

  lemma NothingAddedOn(a: Tables, b: Tables, rows: map<Id, Hold>, seat: Id)
    requires b.holds == a.holds + rows && rows.Keys !! a.holds.Keys
    requires forall h :: h in rows ==> rows[h].seatId != seat
    ensures SeatTaken(b, seat) <==> SeatTaken(a, seat)
  {
    forall h ensures ActiveOn(b, h, seat) <==> ActiveOn(a, h, seat) { }
    if SeatTaken(a, seat) {
      var h :| h in a.holds && ActiveOn(a, h, seat);
      assert h in b.holds && ActiveOn(b, h, seat);
    }
  }

  // ---------- the worker's batch ----------

  lemma BatchListed(s: Tables, now: Time, limit: nat)
    ensures var batch := Prefix(DueQueue(s, now), limit); Distinct(batch) && AllReserved(s, batch)
  {
    var ids := DueQueue(s, now);
    ListingDistinct(Deadlines(s), Overdues(s, now), ids);
    forall r | r in Prefix(ids, limit) ensures r in s.reservations && s.reservations[r].status == Reserved {
      assert r in ids;
      assert r in Overdues(s, now);
    }
  }

  lemma NothingExpired(s: Tables, ids: seq<Id>)
    ensures ExpireEach(s, ids[..0]) == s
  {
  }

  lemma ExpireEachStep(s: Tables, ids: seq<Id>, n: nat)
    requires n < |ids|
    ensures var before := ExpireEach(s, ids[..n]);
            ids[n] in before.reservations ==>
              ExpireEach(s, ids[..n + 1]) == SettleOne(before, ids[n], Expired)
              && ExpireEach(s, ids[..n + 1]).reservations.Keys == before.reservations.Keys
  {
    assert ids[..n + 1][..n] == ids[..n];
  }

  // ---------- what the reserve bodies read ----------

  lemma SameKeysTaken(s: Tables, s': Tables, sessionId: Id, key: string)
    requires s'.reservations == s.reservations
    ensures KeyTaken(s', sessionId, key) <==> KeyTaken(s, sessionId, key)
  {
  }

  lemma StockIsForEvent(s: Tables, op: Op)
    requires op.TakeQuantity? && op.typeId in s.ticketTypes
             && StockFor(s.ticketTypes[op.typeId], op.eventId, op.quantity)
    ensures s.ticketTypes[op.typeId].eventId == op.eventId
  {
  }

  lemma EventExists(s: Tables)
    requires Constraints(s)
    ensures forall k :: k in s.ticketTypes ==> s.ticketTypes[k].eventId in s.events
    ensures forall k :: k in s.seats ==> s.seats[k].eventId in s.events
  {
  }

  // ---------- the service ----------

  class Service {
    const db: Database
    const reservationTTL: int

    constructor (db: Database, reservationTTL: int)
      ensures this.db == db && this.reservationTTL == reservationTTL
    {
      this.db := db;
      this.reservationTTL := reservationTTL;
    }

    method DescribeItems(rid: Id) returns (details: seq<ItemDetail>)
      ensures var ids := OrderBy(ItemsOf(db.items, rid), TypeOrder(db.items));
              (forall i :: i in ids ==> i in db.items) && details == ItemDetails(db.items, ids)
    {
      hide OrderBy, TypeOrder;
      ghost var ids := OrderBy(ItemsOf(db.items, rid), TypeOrder(db.items));
      var items := db.ListReservationItems(rid);
      details := [];
      for n := 0 to |items|
        invariant forall i :: i in ids[..n] ==> i in db.items
        invariant details == ItemDetails(db.items, ids[..n])
      {
        assert ids[..n + 1][..n] == ids[..n];
        details := details + [ItemDetail(items[n].ticketTypeId, items[n].quantity, items[n].status)];
      }
      assert ids[..|ids|] == ids;
    }

    method DescribeSeats(rid: Id) returns (details: seq<SeatDetail>)
      ensures var ids := OrderBy(HoldsOf(db.holds, rid), SeatOrder(db.holds));
              (forall h :: h in ids ==> h in db.holds) && details == SeatDetails(db.holds, ids)
    {
      hide OrderBy, SeatOrder;
      ghost var ids := OrderBy(HoldsOf(db.holds, rid), SeatOrder(db.holds));
      var seats := db.ListReservationSeats(rid);
      details := [];
      for n := 0 to |seats|
        invariant forall h :: h in ids[..n] ==> h in db.holds
        invariant details == SeatDetails(db.holds, ids[..n])
      {
        assert ids[..n + 1][..n] == ids[..n];
        details := details + [SeatDetail(seats[n].seatId, seats[n].status)];
      }
      assert ids[..|ids|] == ids;
    }

    method BuildReservationResponse(rid: Id, header: Reservation) returns (response: ReservationResponse)
      requires rid in db.reservations && db.reservations[rid] == header
      ensures response == ResponseOf(db.Contents(), rid)
    {
      var items, seats := [], [];
      if header.kind == Quantity { items := DescribeItems(rid); } else { seats := DescribeSeats(rid); }
      response := ReservationResponse(rid, header.status, header.kind, header.expiresAt, items, seats);
    }

    // ---------- settling one locked reservation ----------

    method CancelLockedReservation(rid: Id, header: Reservation) returns (updated: Option<Reservation>)
      requires db.Valid() && rid in db.reservations && db.reservations[rid] == header
      modifies db
      ensures db.Valid()
      ensures updated.Some? <==> Settleable(old(db.Contents()), rid)
      ensures updated.Some? ==>
                db.Contents() == SettleOne(old(db.Contents()), rid, Cancelled) && updated == Some(db.reservations[rid])
    {
      if header.kind == Quantity {
        var released := ReleaseReservedQuantityItems(db, rid, Cancelled);
        if !released { return None; }
      } else {
        db.UpdateReservationSeatsStatus(rid, Cancelled);
      }
      var row := db.UpdateReservationStatus(rid, Cancelled);
      updated := Some(row.value);
    }

    method ConfirmLockedReservation(rid: Id, header: Reservation) returns (updated: Option<Reservation>)
      requires db.Valid() && rid in db.reservations && db.reservations[rid] == header
      modifies db
      ensures db.Valid()
      ensures updated.Some? <==> Settleable(old(db.Contents()), rid)
      ensures updated.Some? ==>
                db.Contents() == SettleOne(old(db.Contents()), rid, Confirmed) && updated == Some(db.reservations[rid])
    {
      if header.kind == Quantity {
        var moved := ConfirmReservedQuantityItems(db, rid);
        if !moved { return None; }
      } else {
        db.UpdateReservationSeatsStatus(rid, Confirmed);
      }
      var row := db.UpdateReservationStatus(rid, Confirmed);
      updated := Some(row.value);
    }

    method ExpireLockedReservation(rid: Id, header: Reservation) returns (updated: Option<Reservation>)
      requires db.Valid() && rid in db.reservations && db.reservations[rid].kind == header.kind
      modifies db
      ensures db.Valid()
      ensures updated.Some? <==> Settleable(old(db.Contents()), rid)
      ensures updated.Some? ==>
                db.Contents() == SettleOne(old(db.Contents()), rid, Expired) && updated == Some(db.reservations[rid])
    {
      if header.kind == Quantity {
        var released := ReleaseReservedQuantityItems(db, rid, Expired);
        if !released { return None; }
      } else {
        db.UpdateReservationSeatsStatus(rid, Expired);
      }
      var row := db.UpdateReservationStatus(rid, Expired);
      updated := Some(row.value);
    }

    // ---------- cancel ----------

    method CancelInTx(rid: Id, visitor: Visitor, now: Time) returns (reply: Reply<ReservationResponse>)
      requires db.Valid()
      modifies db
      ensures db.Valid()
      ensures Finishes(old(db.Contents()), if reply.Failed? then old(db.Contents()) else db.Contents(),
                       rid, visitor, Cancelled, now, reply)
    {
      var locked := db.LockReservationForUpdate(rid);
      if !locked.Row? { return Failed(ReservationNotFound); }
      var header := locked.value;
      if !CanAccess(header, visitor) { return Failed(ReservationNotFound); }
      match header.status {
        case Cancelled =>
          var response := BuildReservationResponse(rid, header);
          return Done(response);
        case Confirmed | Expired =>
          var response := BuildReservationResponse(rid, header);
          return Refused(response, ReservationCannotCancel);
        case Reserved =>
          if Overdue(header, now) {
            var updated := ExpireLockedReservation(rid, header);
            if updated.None? { return Failed(ReservationInvariantBroken); }
            var response := BuildReservationResponse(rid, updated.value);
            return Refused(response, ReservationCannotCancel);
          }
          var updated := CancelLockedReservation(rid, header);
          if updated.None? { return Failed(ReservationInvariantBroken); }
          var response := BuildReservationResponse(rid, updated.value);
          return Done(response);
      }
    }

    method CancelReservation(rid: Id, visitor: Visitor, now: Time) returns (reply: Reply<ReservationResponse>)
      requires db.Valid()
      modifies db
      ensures db.Valid()
      ensures Finishes(old(db.Contents()), db.Contents(), rid, visitor, Cancelled, now, reply)
    {
      var saved := db.Contents();
      reply := CancelInTx(rid, visitor, now);
      if reply.Failed? { db.Rollback(saved); }
    }

    // ---------- confirm ----------

    method ConfirmInTx(rid: Id, visitor: Visitor, now: Time) returns (reply: Reply<ReservationResponse>)
      requires db.Valid()
      modifies db
      ensures db.Valid()
      ensures Finishes(old(db.Contents()), if reply.Failed? then old(db.Contents()) else db.Contents(),
                       rid, visitor, Confirmed, now, reply)
    {
      var locked := db.LockReservationForUpdate(rid);
      if !locked.Row? { return Failed(ReservationNotFound); }
      var header := locked.value;
      if !CanAccess(header, visitor) { return Failed(ReservationNotFound); }
      match header.status {
        case Confirmed =>
          var response := BuildReservationResponse(rid, header);
          return Done(response);
        case Cancelled | Expired =>
          var response := BuildReservationResponse(rid, header);
          return Refused(response, ReservationCannotConfirm);
        case Reserved =>
          if Overdue(header, now) {
            var updated := ExpireLockedReservation(rid, header);
            if updated.None? { return Failed(ReservationInvariantBroken); }
            var response := BuildReservationResponse(rid, updated.value);
            return Refused(response, ReservationCannotConfirm);
          }
          var updated := ConfirmLockedReservation(rid, header);
          if updated.None? { return Failed(ReservationInvariantBroken); }
          var response := BuildReservationResponse(rid, updated.value);
          return Done(response);
      }
    }

    method ConfirmReservation(rid: Id, visitor: Visitor, now: Time) returns (reply: Reply<ReservationResponse>)
      requires db.Valid()
      modifies db
      ensures db.Valid()
      ensures Finishes(old(db.Contents()), db.Contents(), rid, visitor, Confirmed, now, reply)
    {
      var saved := db.Contents();
      reply := ConfirmInTx(rid, visitor, now);
      if reply.Failed? { db.Rollback(saved); }
    }

    // ---------- the worker ----------

    method ExpireBatchInTx(batchSize: int, now: Time) returns (processed: int, failed: bool)
      requires db.Valid() && batchSize > 0
      modifies db
      ensures db.Valid()
      ensures !failed ==>
                var batch := Prefix(DueQueue(old(db.Contents()), now), batchSize);
                processed == |batch| && db.Contents() == ExpireEach(old(db.Contents()), batch)
      ensures failed ==> !Inv(old(db.Contents()))
    {
      hide DueQueue, Prefix, Constraints, Inv, Settleable, SettleOne, ExpireEach;
      ghost var s := db.Contents();
      var expired := db.ListExpiredReservationsForUpdate(now, batchSize);
      BatchListed(s, now, batchSize);
      NothingExpired(s, expired);
      processed := 0;
      for n := 0 to |expired|
        invariant db.Valid() && processed == n
        invariant db.Contents() == ExpireEach(s, expired[..n])
        invariant db.reservations.Keys == s.reservations.Keys
      {
        assert expired[n] in expired;
        if Inv(s) { ExpireEachSettleable(s, expired, n); }
        ExpireEachStep(s, expired, n);
        var updated := ExpireLockedReservation(expired[n], db.reservations[expired[n]]);
        if updated.None? { return 0, true; }
        processed := processed + 1;
      }
      assert expired[..|expired|] == expired;
      failed := false;
    }

    /** ExpireExpiredReservations: a batch is one transaction; a failure would undo all of it. */
    method ExpireExpiredReservations(batchSize: int, now: Time) returns (processed: int, error: Option<ServiceError>)
      requires db.Valid()
      modifies db
      ensures db.Valid()
      ensures error.Some? ==> processed == 0 && db.Contents() == old(db.Contents())
      ensures batchSize <= 0 ==> error == Some(ReservationInvariantBroken)
      ensures error.None? ==>
                var batch := Prefix(DueQueue(old(db.Contents()), now), batchSize);
                processed == |batch| && db.Contents() == ExpireEach(old(db.Contents()), batch)
      ensures Inv(old(db.Contents())) && batchSize > 0 ==>
                var batch := Prefix(DueQueue(old(db.Contents()), now), batchSize);
                && error.None? && Inv(db.Contents())
                && db.Contents() == Settle(old(db.Contents()), ToSet(batch), Expired)
                && FirstDue(old(db.Contents()), {}, now, batchSize, batch)
                && OnlySettles(old(db.Contents()), db.Contents(), batch, Expired)
    {
      hide FirstDue, OnlySettles, Settle;
      if batchSize <= 0 { return 0, Some(ReservationInvariantBroken); }
      var saved := db.Contents();
      var failed;
      processed, failed := ExpireBatchInTx(batchSize, now);
      if failed {
        db.Rollback(saved);
        return 0, Some(ReservationInvariantBroken);
      }
      BatchListed(saved, now, batchSize);
      if Inv(saved) {
        ExpireEachSettles(saved, Prefix(DueQueue(saved, now), batchSize));
        SettleKeepsInv(saved, ToSet(Prefix(DueQueue(saved, now), batchSize)), Expired);
        PrefixEarliest(saved, now, batchSize);
        SettleTouches(saved, Prefix(DueQueue(saved, now), batchSize), Expired);
      }
      error := None;
    }

    // ---------- reserving a quantity ----------

    method ReserveQuantityInTx(op: Op) returns (r: TxResult<QuantityAnswer>)
      requires db.Valid() && op.TakeQuantity? && 0 < op.quantity <= INT32_MAX
      modifies db
      ensures db.Valid()
      ensures r.ReplayRequired? ==>
                && LookupQuantity(old(db.Contents()), op.visitor.sessionId, op.key).None?
                && ReservesQuantity(old(db.Contents()), old(db.Contents()), op, Err(IdempotencyKeyConflict))
      ensures r.Commit? ==> ReservesQuantity(old(db.Contents()), db.Contents(), op, Ok(r.value))
      ensures r.Abort? ==> ReservesQuantity(old(db.Contents()), old(db.Contents()), op, Err(r.error))
    {
      hide KeyTaken, LookupQuantity, Constraints, StockFor;
      ghost var s := db.Contents();
      EventExists(s);
      var existing := db.GetQuantityReservationByIdempotencyKey(op.visitor.sessionId, op.key);
      if existing.Some? { return Commit(existing.value); }
      var stock := db.ReserveTicketQuantity(op.typeId, op.eventId, op.quantity);
      if stock.NoRows? { return Abort(InsufficientStock); }
      StockIsForEvent(s, op);
      SameKeysTaken(s, db.Contents(), op.visitor.sessionId, op.key);
      var header := db.CreateReservation(op.rid, NewHeader(op.eventId, op.visitor, Quantity, op.key, op.expiresAt));
      if header.UniqueViolation? { return ReplayRequired; }
      var item := db.CreateReservationItem(op.iid, Item(op.rid, op.typeId, op.quantity, Reserved));
      if !item.Row? { return Abort(DatabaseError); }
      return Commit(QuantityAnswer(op.rid, header.value.status, header.value.kind, header.value.expiresAt,
                                   item.value.ticketTypeId, item.value.quantity));
    }

    method ReplayQuantity(sessionId: Id, key: string) returns (reply: Result<QuantityAnswer>)
      ensures reply == match LookupQuantity(db.Contents(), sessionId, key)
                       case Some(answer) => Ok(answer)
                       case None => Err(IdempotencyKeyConflict)
    {
      var existing := db.GetQuantityReservationByIdempotencyKey(sessionId, key);
      if existing.None? { return Err(IdempotencyKeyConflict); }
      return Ok(existing.value);
    }

    method ReserveQuantity(parse: Parser, visitor: Visitor, input: QuantityInput, now: Time, rid: Id, iid: Id)
      returns (reply: Result<QuantityAnswer>)
      requires db.Valid() && input.quantity <= INT32_MAX
      modifies db
      ensures db.Valid()
      ensures if QuantityAcceptable(parse, input) then
                ReservesQuantity(old(db.Contents()), db.Contents(),
                  TakeQuantity(rid, iid, parse(input.eventId).value, parse(input.ticketTypeId).value, input.quantity,
                               visitor, Trim(input.key), now + reservationTTL), reply)
              else db.Contents() == old(db.Contents()) && reply == Err(InvalidQuantityReservation)
    {
      var parsed := ParseQuantityInput(parse, input);
      if parsed.None? { return Err(InvalidQuantityReservation); }
      var op := TakeQuantity(rid, iid, parsed.value.0, parsed.value.1, input.quantity, visitor,
                             Trim(input.key), now + reservationTTL);
      var saved := db.Contents();
      var r := ReserveQuantityInTx(op);
      if !r.Commit? { db.Rollback(saved); }
      match r {
        case Commit(answer) => reply := Ok(answer);
        case ReplayRequired => reply := ReplayQuantity(visitor.sessionId, op.key);
        case Abort(error) => reply := Err(error);
      }
    }

    // ---------- reserving seats ----------

    method SeatRowsToResponse(rows: seq<SeatKeyRow>, holds: map<Id, Hold>, ghost ids: seq<Id>)
      returns (answer: SeatsAnswer)
      requires rows != [] && |rows| == |ids|
      requires forall j :: 0 <= j < |ids| ==> ids[j] in holds && rows[j].seatId == holds[ids[j]].seatId
      ensures (forall h :: h in ids ==> h in holds)
      ensures answer == SeatsAnswer(rows[0].reservationId, rows[0].status, rows[0].kind, rows[0].expiresAt,
                                    SeatList(holds, ids))
    {
      var seats := [];
      for n := 0 to |rows|
        invariant forall h :: h in ids[..n] ==> h in holds
        invariant seats == SeatList(holds, ids[..n])
      {
        assert ids[..n + 1][..n] == ids[..n];
        seats := seats + [rows[n].seatId];
      }
      assert ids[..|ids|] == ids;
      answer := SeatsAnswer(rows[0].reservationId, rows[0].status, rows[0].kind, rows[0].expiresAt, seats);
    }

    method FindSeats(sessionId: Id, key: string) returns (r: Option<SeatsAnswer>)
      ensures r == LookupSeats(db.Contents(), sessionId, key)
    {
      hide SeatList, OrderBy, SeatOrder, MatchingHolds;
      ghost var ids := OrderBy(MatchingHolds(db.Contents(), sessionId, key), SeatOrder(db.holds));
      var rows := db.GetSeatReservationByIdempotencyKey(sessionId, key);
      if |rows| == 0 { return None; }
      var answer := SeatRowsToResponse(rows, db.holds, ids);
      return Some(answer);
    }

    /** The sweep: list without locks, lock the headers, then two bulk UPDATEs. */
    method SweepOverdue(seatIds: seq<Id>, listedAt: Time)
      requires db.Valid()
      modifies db
      ensures db.Valid() && db.Contents() == Swept(old(db.Contents()), seatIds, listedAt)
    {
      hide Constraints, OverdueHolders, MarkedHolds, MarkedHeaders;
      ghost var s := db.Contents();
      var expiredIds := db.ListExpiredActiveReservationIDsForSeats(seatIds, listedAt);
      assert ToSet(expiredIds) == OverdueHolders(s, ToSet(seatIds), listedAt);
      if |expiredIds| > 0 {
        var _ := db.LockReservationsByID(expiredIds);
        db.ExpireReservationSeatsByReservationIDs(expiredIds);
        db.ExpireReservationsByIDs(expiredIds);
      } else {
        SweepNone(s, seatIds, listedAt);
      }
    }

    /** One insert per locked seat; the first unique violation ends the transaction. */
    method InsertSeatRows(call: SeatsCall, lockedSeatIds: seq<Id>, ghost s: Tables) returns (seats: Option<seq<Id>>)
      requires db.Valid() && Ascending(call.seatIds) && lockedSeatIds == call.seatIds
      requires db.Contents() == Inserted(s, call, 0) && SeatsExist(s, call.eventId, call.seatIds)
      modifies db
      ensures db.Valid()
      ensures seats.Some?
              <==> Insertable(Swept(s, call.seatIds, call.listedAt), call.seatIds, call.newIds, |call.seatIds|)
      ensures seats.Some? ==> db.Contents() == Inserted(s, call, |call.seatIds|) && seats.value == call.seatIds
    {
      hide Swept, Insertable, RowsFor, SeatTaken, Constraints, Ascending;
      ghost var swept := Swept(s, call.seatIds, call.listedAt);
      SweptKeepsSeats(s, call);
      InsertableNone(swept, call);
      var reservedSeats := [];
      for n := 0 to |lockedSeatIds|
        invariant db.Valid()
        invariant db.Contents() == Inserted(s, call, n)
        invariant Insertable(swept, call.seatIds, call.newIds, n)
        invariant reservedSeats == call.seatIds[..n]
      {
        InsertStep(s, call, n);
        assert call.seatIds[n] in call.seatIds;
        var row := db.CreateReservationSeat(call.newIds(n), Hold(call.rid, lockedSeatIds[n], Reserved, call.expiresAt));
        if row.UniqueViolation? {
          InsertableShrinks(swept, call, n + 1);
          return None;
        }
        assert call.seatIds[..n + 1] == call.seatIds[..n] + [call.seatIds[n]];
        reservedSeats := reservedSeats + [row.value.seatId];
      }
      assert call.seatIds[..|call.seatIds|] == call.seatIds;
      seats := Some(reservedSeats);
    }

    method ReserveSeatsInTx(call: SeatsCall) returns (r: TxResult<SeatsAnswer>)
      requires db.Valid() && call.seatIds != [] && Ascending(call.seatIds) && forall j :: 0 <= j < |call.seatIds| ==>
                 call.seatIds[j] < UUIDS
      modifies db
      ensures db.Valid()
      ensures r.ReplayRequired? ==>
                && LookupSeats(old(db.Contents()), call.visitor.sessionId, call.key).None?
                && ReservesSeats(old(db.Contents()), old(db.Contents()), call, Err(IdempotencyKeyConflict))
      ensures r.Commit? ==> ReservesSeats(old(db.Contents()), db.Contents(), call, Ok(r.value))
      ensures r.Abort? ==> ReservesSeats(old(db.Contents()), old(db.Contents()), call, Err(r.error))
    {
      hide KeyTaken, LookupSeats, Constraints, Swept, Insertable, RowsFor, EventSeats, Ascending, SeatsExist;
      ghost var s := db.Contents();
      var existing := FindSeats(call.visitor.sessionId, call.key);
      if existing.Some? { return Commit(existing.value); }
      var lockedSeatIds := db.LockEventSeats(call.eventId, call.seatIds);
      LockedAll(s, call.eventId, call.seatIds);
      forall j | 0 <= j < |lockedSeatIds| ensures lockedSeatIds[j] < UUIDS { assert lockedSeatIds[j] in lockedSeatIds; }
      var same := SameUUIDSet(lockedSeatIds, call.seatIds);
      if !same { return Abort(SeatsNotFound); }
      SeatsEvent(s, call);
      SweepOverdue(call.seatIds, call.listedAt);
      SweptKeys(s, call);
      SweptKeepsSeats(s, call);
      var header := db.CreateReservation(call.rid,
        NewHeader(call.eventId, call.visitor, Seats, call.key, call.expiresAt));
      if header.UniqueViolation? { return ReplayRequired; }
      InsertStart(s, call);
      var seats := InsertSeatRows(call, lockedSeatIds, s);
      if seats.None? { return Abort(SeatUnavailable); }
      return Commit(SeatsAnswer(call.rid, header.value.status, header.value.kind, header.value.expiresAt, seats.value));
    }

    method ReplaySeats(sessionId: Id, key: string) returns (reply: Result<SeatsAnswer>)
      ensures reply == match LookupSeats(db.Contents(), sessionId, key)
                       case Some(answer) => Ok(answer)
                       case None => Err(IdempotencyKeyConflict)
    {
      var existing := FindSeats(sessionId, key);
      if existing.None? { return Err(IdempotencyKeyConflict); }
      return Ok(existing.value);
    }

    /** The listing reads the clock again after the deadline was computed: listedAt need not be now. */
    method ReserveSeats(parse: Parser, visitor: Visitor, input: SeatInput, now: Time, listedAt: Time, rid: Id,
                        newIds: nat -> Id)
      returns (reply: Result<SeatsAnswer>, ghost call: SeatsCall)
      requires db.Valid()
      modifies db
      ensures db.Valid()
      ensures if SeatsAcceptable(parse, input) then
                && SeatsParsed(parse, input, parse(input.eventId).value, call.seatIds)
                && call == SeatsCall(parse(input.eventId).value, call.seatIds, visitor, Trim(input.key),
                                     now + reservationTTL, listedAt, rid, newIds)
                && ReservesSeats(old(db.Contents()), db.Contents(), call, reply)
              else db.Contents() == old(db.Contents()) && reply == Err(InvalidSeatReservation)
    {
      call := SeatsCall(0, [], visitor, "", now, listedAt, rid, newIds);
      var parsed := ParseSeatInput(parse, input);
      if parsed.None? { return Err(InvalidSeatReservation), call; }
      var (eventId, seatIds) := parsed.value;
      var request := SeatsCall(eventId, seatIds, visitor, Trim(input.key), now + reservationTTL, listedAt, rid, newIds);
      call := request;
      var saved := db.Contents();
      var r := ReserveSeatsInTx(request);
      if !r.Commit? { db.Rollback(saved); }
      match r {
        case Commit(answer) => reply := Ok(answer);
        case ReplayRequired => reply := ReplaySeats(visitor.sessionId, request.key);
        case Abort(error) => reply := Err(error);
      }
    }
  }
}
