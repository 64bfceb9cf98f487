/**
 What a take leaves behind for good, and whom it belongs to: however long the run and however its statements
 interleave, the stored reservation describes the request that made it, and only the session that made it, or a
 session of the same user, can ever cancel or confirm it.
 */
module Ownership {
  import opened Schema
  import opened Invariant
  import opened Settlement
  import opened Serial
  import opened Runs
  import opened Lifecycle
  import opened Machine
  import opened Serializable

  /** The stored header, whatever has happened to its status. */
  ghost predicate HeaderDescribes(s: Tables, rid: Id, kind: Kind, eventId: Id, visitor: Visitor, key: string,
                                  expiresAt: Time) {
    && rid in s.reservations
    && var header := s.reservations[rid];
    && header.kind == kind && header.eventId == eventId && header.key == key && header.expiresAt == expiresAt
    && header.sessionId == visitor.sessionId && header.userId == visitor.userId
  }

  /** One item, for the type and quantity asked for. */
  ghost predicate ItemDescribes(s: Tables, rid: Id, iid: Id, typeId: Id, quantity: int) {
    && (forall i :: i in s.items ==> (s.items[i].reservationId == rid <==> i == iid))
    && iid in s.items && s.items[iid].ticketTypeId == typeId && s.items[iid].quantity == quantity
  }

  /** The taken rows and no others, each for its seat and until the deadline. */
  ghost predicate HoldsDescribe(s: Tables, rid: Id, rows: map<Id, Hold>, expiresAt: Time) {
    && (forall h :: h in s.holds ==> (s.holds[h].reservationId == rid <==> h in rows))
    && (forall h :: h in rows ==>
          h in s.holds && s.holds[h].seatId == rows[h].seatId && s.holds[h].expiresAt == expiresAt)
  }

  ghost predicate Describes(s: Tables, op: Op) {
    match op
    case TakeQuantity(rid, iid, eventId, typeId, quantity, visitor, key, expiresAt) =>
      && HeaderDescribes(s, rid, Quantity, eventId, visitor, key, expiresAt)
      && ItemDescribes(s, rid, iid, typeId, quantity)
    case TakeSeats(rid, rows, eventId, visitor, key, expiresAt, _) =>
      && HeaderDescribes(s, rid, Seats, eventId, visitor, key, expiresAt)
      && HoldsDescribe(s, rid, rows, expiresAt)
    case _ => true
  }

  lemma InsertQuantityDescribes(s: Tables, op: Op)
    requires ReferencesOk(s) && op.TakeQuantity? && op.rid !in s.reservations && op.iid !in s.items
    requires op.typeId in s.ticketTypes
    ensures Describes(InsertQuantity(s, op), op)
  {
  }

  lemma InsertSeatsDescribes(s: Tables, op: Op)
    requires ReferencesOk(s) && op.TakeSeats? && op.rid !in s.reservations
    requires forall h :: h in op.rows ==> op.rows[h].reservationId == op.rid && op.rows[h].expiresAt == op.expiresAt
    ensures Describes(InsertSeats(s, op), op)
  {
  }

  /** A take stores the request ... */
  lemma TakeDescribes(s: Tables, op: Op)
    requires Inv(s) && Legal(s, op)
    ensures Describes(Apply(s, op), op)
  {
    hide Describes, Settle, InsertQuantity, InsertSeats, OverdueHolders, Bookable, KeyTaken, Agrees, Conserved, RowsFit;
    if op.TakeQuantity? {
      InsertQuantityDescribes(s, op);
    } else if op.TakeSeats? {
      var rs := Leaving(s, op);
      SettleKeepsInv(s, rs, Expired);
      SettledHeaders(s, rs);
      RowsAreTheTakes(s, op);
      InsertSeatsDescribes(Settle(s, rs, Expired), op);
    } else {
      NothingToDescribe(Apply(s, op), op);
    }
  }

  lemma RowsAreTheTakes(s: Tables, op: Op)
    requires op.TakeSeats? && RowsFit(s, op.rid, op.rows, op.eventId, op.expiresAt)
    ensures forall h :: h in op.rows ==> op.rows[h].reservationId == op.rid && op.rows[h].expiresAt == op.expiresAt
  {
  }

  lemma SettledHeaders(s: Tables, rs: set<Id>)
    ensures Settle(s, rs, Expired).reservations.Keys == s.reservations.Keys
  {
  }

  lemma NothingToDescribe(s: Tables, op: Op)
    requires !op.TakeQuantity? && !op.TakeSeats?
    ensures Describes(s, op)
  {
  }

  /** ... and what is stored stays. */
  lemma DescribesStays(s: Tables, s': Tables, op: Op)
    requires Evolves(s, s') && Describes(s, op)
    ensures Describes(s', op)
  {
    if op.TakeQuantity? || op.TakeSeats? { assert HeaderEvolves(s.reservations[op.rid], s'.reservations[op.rid]); }
    if op.TakeQuantity? {
      forall i | i in s'.items ensures s'.items[i].reservationId == op.rid <==> i == op.iid {
        if i in s.items { assert ItemEvolves(s.items[i], s'.items[i]); }
      }
      assert ItemEvolves(s.items[op.iid], s'.items[op.iid]);
    } else if op.TakeSeats? {
      forall h | h in s'.holds ensures s'.holds[h].reservationId == op.rid <==> h in op.rows {
        if h in s.holds { assert HoldEvolves(s.holds[h], s'.holds[h]); }
      }
      forall h | h in op.rows ensures h in s'.holds && HoldEvolves(s.holds[h], s'.holds[h]) { }
    }
  }

  /** Between a take and any later moment of a run nobody rewrites what was taken, for whom, or until when. */
  lemma TakeStaysDescribed(s: Tables, ops: seq<Op>, i: nat, j: nat)
    requires Inv(s) && LegalRun(s, ops) && i < j <= |ops|
    ensures Describes(Replay(s, ops[..j]), ops[i])
  {
    hide Inv, Legal, Apply, Evolves, Describes, LegalRun;
    RunKeepsInv(s, ops, i);
    ReplayStep(s, ops, i);
    TakeDescribes(Replay(s, ops[..i]), ops[i]);
    RunEvolves(s, ops, i + 1, j);
    DescribesStays(Replay(s, ops[..i + 1]), Replay(s, ops[..j]), ops[i]);
  }

  /** In any interleaved run every committed take is still described by the tables at the end. */
  lemma InterleavingsKeepTakes(s: Tables, events: seq<Event>, i: nat)
    requires Inv(s) && i < |Run(s, events).history|
    ensures Describes(Run(s, events).committed, Run(s, events).history[i])
  {
    hide Inv, Run, Describes, LegalRun;
    InterleavingsSerialise(s, events);
    var ops := Run(s, events).history;
    TakeStaysDescribed(s, ops, i, |ops|);
    assert ops[..|ops|] == ops;
  }

  // ---------- whose it is ----------

  /** The same session, or two sessions of one user. */
  predicate SameOwner(a: Visitor, b: Visitor) {
    a.sessionId == b.sessionId || (a.userId.Some? && a.userId == b.userId)
  }

  predicate IsTake(op: Op) {
    op.TakeQuantity? || op.TakeSeats?
  }

  /**
   In any interleaved run, once a reservation has been taken, a cancel or confirm of it is answered "not found"
   exactly when it comes from neither the session that took it nor another session of the same user.
   */
  lemma OnlyOwnersReach(s: Tables, events: seq<Event>, i: nat, s': Tables, visitor: Visitor, want: Status, now: Time,
                        reply: Reply<ReservationResponse>)
    requires Inv(s) && i < |Run(s, events).history| && IsTake(Run(s, events).history[i])
    requires want == Cancelled || want == Confirmed
    requires Finishes(Run(s, events).committed, s', Run(s, events).history[i].rid, visitor, want, now, reply)
    ensures reply == Failed(ReservationNotFound) <==> !SameOwner(Run(s, events).history[i].visitor, visitor)
    ensures !SameOwner(Run(s, events).history[i].visitor, visitor) ==> s' == Run(s, events).committed
  {
    hide Inv, Run, LegalRun, Settleable, SettleOne, ResponseOf;
    InterleavingsKeepTakes(s, events, i);
  }

  /** So no run commits a cancel or confirm of a taken reservation for anybody else. */
  lemma OnlyOwnersFinish(s: Tables, events: seq<Event>, i: nat, j: nat)
    requires Inv(s) && i < |Run(s, events).history| && j < |Run(s, events).history|
    requires var ops := Run(s, events).history; IsTake(ops[i]) && ops[j].Finish? && ops[j].rid == ops[i].rid
    ensures var ops := Run(s, events).history; i < j && SameOwner(ops[i].visitor, ops[j].visitor)
  {
    hide Inv, Run, LegalRun, Apply, Evolves, ItemDescribes, HoldsDescribe;
    InterleavingsSerialise(s, events);
    var ops := Run(s, events).history;
    ReplayStep(s, ops, i);
    ReplayStep(s, ops, j);
    if j < i {
      RunEvolves(s, ops, j, i);
      StillStored(Replay(s, ops[..j]), Replay(s, ops[..i]), ops[j].rid);
    } else {
      TakeStaysDescribed(s, ops, i, j);
    }
  }

  lemma StillStored(a: Tables, b: Tables, r: Id)
    requires Evolves(a, b) && r in a.reservations
    ensures r in b.reservations
  {
  }
}
