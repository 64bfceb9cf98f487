/**
 What the deciding statements of an interleaved transaction do, row by row and in the terms of the stored fields:
 the header lock of cancel and confirm, the worker's SKIP LOCKED batch, and the opening key read of a reserve.
 */
module Statements {
  import opened Schema
  import opened Ordering
  import opened Invariant
  import opened Settlement
  import opened Serial
  import opened Queries
  import opened Machine

  // ---------- LockReservationForUpdate ----------

  /**
   The first statement of a cancel or confirm runs exactly when the reservation exists, is of this session or of
   this session's user, and is not locked elsewhere. It answers at once if the reservation has left `reserved`;
   otherwise it starts settling that reservation, towards expiry exactly when the deadline has been reached. It
   locks that one header.
   */
  lemma HeaderLockMeans(c: Tables, busy: set<Row>, q: Request, w: Writes, now: Time)
    requires q.FinishRequest?
    ensures LockHeader(c, busy, q, w, now).Some? <==>
              && q.rid in c.reservations && HeaderRow(q.rid) !in busy
              && (c.reservations[q.rid].sessionId == q.visitor.sessionId
                  || (q.visitor.userId.Some? && c.reservations[q.rid].userId == q.visitor.userId))
    ensures LockHeader(c, busy, q, w, now).Some? ==>
              var p, header := LockHeader(c, busy, q, w, now).value, c.reservations[q.rid];
              && p.writes == w && p.takes == {HeaderRow(q.rid)}
              && (header.status != Reserved ==> p.stage == Answered)
              && (header.status == Reserved ==>
                    p.stage == Settling(if header.expiresAt <= now then Expired else q.want, now, [q.rid], 0, Idle))
  {
  }

  // ---------- ListExpiredReservationsForUpdate ----------

  /** The reservations whose headers other transactions have locked. */
  ghost function LockedHeaders(c: Tables, busy: set<Row>): set<Id> {
    set r | r in c.reservations && HeaderRow(r) in busy
  }

  lemma DueIsTakable(c: Tables, busy: set<Row>, now: Time)
    ensures forall r :: r in Due(c, busy, now) <==> Takable(c, LockedHeaders(c, busy), now, r)
  {
  }

  /** The batch statement always runs, whatever is locked: it skips the locked headers and no others. */
  lemma BatchLockMeans(c: Tables, busy: set<Row>, q: Request, w: Writes, now: Time)
    requires q.BatchRequest?
    ensures LockBatch(c, busy, q, w, now).Some?
    ensures var p := LockBatch(c, busy, q, w, now).value;
            && p.writes == w
            && p.stage.Settling? && p.stage == Settling(Expired, now, p.stage.queue, 0, Idle)
            && FirstDue(c, LockedHeaders(c, busy), now, q.limit, p.stage.queue)
            && (forall x :: x in p.takes <==> exists r :: r in p.stage.queue && x == HeaderRow(r))
  {
    hide Due, Deadlines, FirstDue, Takable, LockedHeaders;
    DueIsTakable(c, busy, now);
    PrefixFirstDue(c, LockedHeaders(c, busy), now, q.limit, Due(c, busy, now),
      OrderBy(Due(c, busy, now), Deadlines(c)));
  }

  // ---------- ListReservationItems ----------

  /** A settlement goes through all the items of a quantity reservation, by ticket type and id. */
  lemma ItemListMeans(c: Tables, busy: set<Row>, w: Writes, st: Stage)
    requires st.Settling? && st.sub.Idle? && st.done < |st.queue|
    requires st.queue[st.done] in View(c, w).reservations
             && View(c, w).reservations[st.queue[st.done]].kind == Quantity
    ensures SettleStep(c, busy, w, st).Some?
    ensures var p := SettleStep(c, busy, w, st).value;
            && p.writes == w && p.takes == {} && p.stage.Settling? && p.stage.sub.Moving?
            && p.stage == st.(sub := Moving(p.stage.sub.list, 0))
            && ItemsInOrder(View(c, w).items, st.queue[st.done], p.stage.sub.list)
  {
    hide View, OrderBy, TypeOrder, ItemsOf;
    ItemsListed(View(c, w).items, st.queue[st.done]);
  }

  // ---------- GetQuantityReservationByIdempotencyKey, GetSeatReservationByIdempotencyKey ----------

  lemma ReplayableMeans(c: Tables, visitor: Visitor, key: string, kind: Kind)
    requires Inv(c)
    ensures Replayable(c, visitor, key, kind) <==> Stored(c, visitor.sessionId, key, kind)
  {
    if r :| KeyedAs(c, r, visitor.sessionId, key, kind) { OneKindOfChild(c, r); }
    if Replayable(c, visitor, key, kind) {
      var r :| r in c.reservations && c.reservations[r].sessionId == visitor.sessionId && c.reservations[r].key == key
               && c.reservations[r].kind == kind;
      assert KeyedAs(c, r, visitor.sessionId, key, kind);
    }
  }

  /** A quantity request is answered from its key exactly when a quantity reservation is stored under it. */
  lemma QuantityKeyRead(c: Tables, busy: set<Row>, q: Request, w: Writes, newId: Id)
    requires Inv(c) && q.QuantityRequest?
    ensures QuantityStep(c, busy, q, w, Start, newId)
         == Some(Progress(if Stored(c, q.visitor.sessionId, q.key, Quantity) then Answered else Checked, w, {}))
  {
    ReplayableMeans(c, q.visitor, q.key, Quantity);
  }

  /** A seat request is answered from its key exactly when a seats reservation is stored under it. */
  lemma SeatsKeyRead(c: Tables, busy: set<Row>, q: Request, w: Writes, now: Time, newId: Id)
    requires Inv(c) && q.SeatsRequest?
    ensures SeatsStep(c, busy, q, w, Start, now, newId)
         == Some(Progress(if Stored(c, q.visitor.sessionId, q.key, Seats) then Answered else Checked, w, {}))
  {
    ReplayableMeans(c, q.visitor, q.key, Seats);
  }

  // ---------- ReserveTicketQuantity ----------

  /** The guarded stock UPDATE runs exactly when the type is the event's, enough is left and nobody has locked it. */
  lemma StockStepMeans(c: Tables, busy: set<Row>, q: Request, w: Writes, newId: Id)
    requires q.QuantityRequest?
    ensures QuantityStep(c, busy, q, w, Checked, newId).Some? <==>
              InStock(c, q.typeId, q.eventId, q.quantity) && TypeRow(q.typeId) !in busy
    ensures QuantityStep(c, busy, q, w, Checked, newId).Some? ==>
              var p, t := QuantityStep(c, busy, q, w, Checked, newId).value, c.ticketTypes[q.typeId];
              && p.stage == StockTaken && p.takes == {TypeRow(q.typeId)}
              && p.writes == w.(ticketTypes := w.ticketTypes[q.typeId := t.(reserved := t.reserved + q.quantity)])
  {
  }
}
