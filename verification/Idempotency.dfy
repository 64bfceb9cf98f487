/**
 Retries: however long the run and however its statements interleave, a (session, key) that has been answered
 once is answered with the same reservation for ever, whatever the retry asks for; only its status moves on.
 */
module Idempotency {
  import opened Schema
  import opened Ordering
  import opened Invariant
  import opened Serial
  import opened Runs
  import opened Queries
  import opened Booking
  import opened Machine
  import opened Serializable

  /** The items found under a key are the same in every later state. */
  lemma MatchingItemsStay(s: Tables, s': Tables, r: Id, sessionId: Id, key: string)
    requires KeysUnique(s') && Evolves(s, s') && KeyedAs(s, r, sessionId, key, Quantity)
    ensures MatchingItems(s', sessionId, key) == MatchingItems(s, sessionId, key)
    ensures forall i :: i in MatchingItems(s', sessionId, key) ==> s'.items[i].reservationId == r
  {
    assert HeaderEvolves(s.reservations[r], s'.reservations[r]);
    forall i | i in MatchingItems(s', sessionId, key) ensures s'.items[i].reservationId == r {
      assert SameKey(s'.reservations[s'.items[i].reservationId], s'.reservations[r]);
    }
    forall i ensures i in MatchingItems(s', sessionId, key) <==> i in MatchingItems(s, sessionId, key) {
      if i in MatchingItems(s', sessionId, key) {
        assert i in s.items;
        assert ItemEvolves(s.items[i], s'.items[i]);
      }
      if i in MatchingItems(s, sessionId, key) {
        assert ItemEvolves(s.items[i], s'.items[i]);
        assert HeaderEvolves(s.reservations[s.items[i].reservationId], s'.reservations[s.items[i].reservationId]);
      }
    }
  }

  /** A quantity answer stays the answer; only the status is read afresh. */
  lemma QuantityAnswerStays(s: Tables, s': Tables, sessionId: Id, key: string)
    requires Inv(s) && Inv(s') && Evolves(s, s') && LookupQuantity(s, sessionId, key).Some?
    ensures var before, after := LookupQuantity(s, sessionId, key), LookupQuantity(s', sessionId, key);
            && before.value.reservationId in s'.reservations
            && after == Some(before.value.(status := s'.reservations[before.value.reservationId].status))
  {
    hide Inv, Evolves, KeysUnique;
    var r := LookupQuantity(s, sessionId, key).value.reservationId;
    LookupQuantityFinds(s, sessionId, key);
    HeaderEvolved(s, s', r);
    MatchingItemsStay(s, s', r, sessionId, key);
    var ids := ById(MatchingItems(s, sessionId, key));
    assert ids[0] in ids;
    ItemEvolved(s, s', ids[0]);
  }

  lemma MatchingHoldsStay(s: Tables, s': Tables, r: Id, sessionId: Id, key: string)
    requires KeysUnique(s') && Evolves(s, s') && KeyedAs(s, r, sessionId, key, Seats)
    ensures MatchingHolds(s', sessionId, key) == MatchingHolds(s, sessionId, key)
    ensures forall h :: h in MatchingHolds(s', sessionId, key) ==>
              s'.holds[h].reservationId == r && s'.holds[h].seatId == s.holds[h].seatId
  {
    assert HeaderEvolves(s.reservations[r], s'.reservations[r]);
    forall h | h in MatchingHolds(s', sessionId, key) ensures s'.holds[h].reservationId == r {
      assert SameKey(s'.reservations[s'.holds[h].reservationId], s'.reservations[r]);
    }
    forall h ensures h in MatchingHolds(s', sessionId, key) <==> h in MatchingHolds(s, sessionId, key) {
      if h in MatchingHolds(s', sessionId, key) {
        assert h in s.holds;
        assert HoldEvolves(s.holds[h], s'.holds[h]);
      }
      if h in MatchingHolds(s, sessionId, key) {
        assert HoldEvolves(s.holds[h], s'.holds[h]);
        assert HeaderEvolves(s.reservations[s.holds[h].reservationId], s'.reservations[s.holds[h].reservationId]);
      }
    }
  }

  lemma {:induction false} SameSeatList(holds: map<Id, Hold>, holds': map<Id, Hold>, ids: seq<Id>)
    requires forall h :: h in ids ==> h in holds && h in holds' && holds[h].seatId == holds'[h].seatId
    ensures SeatList(holds, ids) == SeatList(holds', ids)
  {
    if ids != [] {
      SameSeatList(holds, holds', ids[..|ids| - 1]);
      assert ids[|ids| - 1] in ids;
    }
  }

  /** A seats answer stays the answer, seat by seat; only the status is read afresh. */
  lemma SeatsAnswerStays(s: Tables, s': Tables, sessionId: Id, key: string)
    requires Inv(s) && Inv(s') && Evolves(s, s') && LookupSeats(s, sessionId, key).Some?
    ensures var before, after := LookupSeats(s, sessionId, key), LookupSeats(s', sessionId, key);
            && before.value.reservationId in s'.reservations
            && after == Some(before.value.(status := s'.reservations[before.value.reservationId].status))
  {
    hide Inv, Evolves, KeysUnique, SeatList;
    var r := LookupSeats(s, sessionId, key).value.reservationId;
    LookupSeatsFinds(s, sessionId, key);
    HeaderEvolved(s, s', r);
    MatchingHoldsStay(s, s', r, sessionId, key);
    var rows := MatchingHolds(s, sessionId, key);
    var ids := OrderBy(rows, SeatOrder(s.holds));
    ListingUnique(SeatOrder(s.holds), SeatOrder(s'.holds), rows, ids, OrderBy(rows, SeatOrder(s'.holds)));
    SameSeatList(s.holds, s'.holds, ids);
    assert ids[0] in ids;
  }

  lemma ItemEvolved(s: Tables, s': Tables, i: Id)
    requires Evolves(s, s') && i in s.items
    ensures i in s'.items && ItemEvolves(s.items[i], s'.items[i])
  {
  }

  lemma HeaderEvolved(s: Tables, s': Tables, r: Id)
    requires Inv(s') && Evolves(s, s') && r in s.reservations
    ensures r in s'.reservations && HeaderEvolves(s.reservations[r], s'.reservations[r]) && KeysUnique(s')
  {
  }

  // ---------- over runs ----------

  lemma TakenSeatsFound(s: Tables, op: Op)
    requires Inv(s) && op.TakeSeats? && Legal(s, op)
    ensures LookupSeats(Apply(s, op), op.visitor.sessionId, op.key).Some?
    ensures LookupSeats(Apply(s, op), op.visitor.sessionId, op.key).value.reservationId == op.rid
  {
    var s' := Apply(s, op);
    ApplyKeepsInv(s, op);
    assert KeyedAs(s', op.rid, op.visitor.sessionId, op.key, Seats);
    LookupSeatsFinds(s', op.visitor.sessionId, op.key);
    assert SameKey(s'.reservations[op.rid],
      s'.reservations[LookupSeats(s', op.visitor.sessionId, op.key).value.reservationId]);
  }

  /** The key of a take is answered with the reservation it made, in that reservation's current status. */
  ghost predicate AnsweredAs(after: Tables, op: Op, taken: Tables) {
    match op
    case TakeQuantity(rid, _, _, _, _, visitor, key, _) =>
      && rid in after.reservations
      && LookupQuantity(after, visitor.sessionId, key)
         == Some(QuantityAnswerTo(op).(status := after.reservations[rid].status))
    case TakeSeats(rid, _, _, visitor, key, _, _) =>
      && rid in after.reservations
      && LookupSeats(taken, visitor.sessionId, key).Some?
      && LookupSeats(taken, visitor.sessionId, key).value.reservationId == rid
      && LookupSeats(after, visitor.sessionId, key)
         == Some(LookupSeats(taken, visitor.sessionId, key).value.(status := after.reservations[rid].status))
    case _ => true
  }

  /** In a serial run, whatever took a key is what every later request with that key is told about. */
  lemma AnswerDescribesTheTake(s: Tables, ops: seq<Op>, i: nat, j: nat)
    requires Inv(s) && LegalRun(s, ops) && i < j <= |ops|
    ensures AnsweredAs(Replay(s, ops[..j]), ops[i], Replay(s, ops[..i + 1]))
  {
    hide Inv, LookupQuantity, LookupSeats, Evolves, Legal, Apply, LegalRun;
    var before, taken, after := Replay(s, ops[..i]), Replay(s, ops[..i + 1]), Replay(s, ops[..j]);
    RunKeepsInv(s, ops, i);
    RunKeepsInv(s, ops, i + 1);
    RunKeepsInv(s, ops, j);
    ReplayStep(s, ops, i);
    RunEvolves(s, ops, i + 1, j);
    var op := ops[i];
    if op.TakeQuantity? {
      QuantityTakenIsAnswered(before, op);
      QuantityAnswerStays(taken, after, op.visitor.sessionId, op.key);
    } else if op.TakeSeats? {
      TakenSeatsFound(before, op);
      SeatsAnswerStays(taken, after, op.visitor.sessionId, op.key);
    }
  }

  /**
   The replay after a key collision: the stored reservation answers, or the other type is stored and there is
   a conflict.
   */
  lemma ReplayConflictsOnOtherKind(s: Tables, s': Tables, r: Id, sessionId: Id, key: string, kind: Kind)
    requires Inv(s) && Inv(s') && Evolves(s, s') && KeyedAs(s, r, sessionId, key, kind)
    ensures LookupQuantity(s', sessionId, key).None? <==> kind == Seats
    ensures LookupSeats(s', sessionId, key).None? <==> kind == Quantity
  {
    assert HeaderEvolves(s.reservations[r], s'.reservations[r]);
    assert KeyedAs(s', r, sessionId, key, kind);
    TakenIsFound(s', sessionId, key);
    LookupQuantityFinds(s', sessionId, key);
    LookupSeatsFinds(s', sessionId, key);
  }

  /** The read at the start of a reserve transaction finds a reservation exactly when the lookup answers. */
  lemma ReplayableIsFound(c: Tables, visitor: Visitor, key: string)
    requires Inv(c)
    ensures Replayable(c, visitor, key, Quantity) <==> LookupQuantity(c, visitor.sessionId, key).Some?
    ensures Replayable(c, visitor, key, Seats) <==> LookupSeats(c, visitor.sessionId, key).Some?
  {
    LookupQuantityFinds(c, visitor.sessionId, key);
    LookupSeatsFinds(c, visitor.sessionId, key);
    forall r, kind | KeyedAs(c, r, visitor.sessionId, key, kind) ensures Replayable(c, visitor, key, kind) {
      OneKindOfChild(c, r);
    }
    forall kind | Replayable(c, visitor, key, kind) ensures Stored(c, visitor.sessionId, key, kind) {
      var r :| r in c.reservations && c.reservations[r].sessionId == visitor.sessionId
               && c.reservations[r].key == key && c.reservations[r].kind == kind;
      assert KeyedAs(c, r, visitor.sessionId, key, kind);
    }
  }

  // ---------- over interleavings ----------

  /** In any interleaved run an answer given once is the answer ever after, and the other kind ever after conflicts. */
  lemma InterleavingsAnswerTheSame(s: Tables, events: seq<Event>, i: nat, sessionId: Id, key: string)
    requires Inv(s) && i <= |events|
    ensures var before, after := Run(s, events[..i]).committed, Run(s, events).committed;
            && (LookupQuantity(before, sessionId, key).Some? ==>
                  var answer := LookupQuantity(before, sessionId, key).value;
                  && answer.reservationId in after.reservations
                  && LookupQuantity(after, sessionId, key)
                     == Some(answer.(status := after.reservations[answer.reservationId].status))
                  && LookupSeats(after, sessionId, key).None?)
            && (LookupSeats(before, sessionId, key).Some? ==>
                  var answer := LookupSeats(before, sessionId, key).value;
                  && answer.reservationId in after.reservations
                  && LookupSeats(after, sessionId, key)
                     == Some(answer.(status := after.reservations[answer.reservationId].status))
                  && LookupQuantity(after, sessionId, key).None?)
  {
    hide Inv, LookupQuantity, LookupSeats, Evolves, Run, LegalRun;
    var before, after := Run(s, events[..i]).committed, Run(s, events).committed;
    InterleavingsSerialise(s, events[..i]);
    InterleavingsSerialise(s, events);
    InterleavingsEvolve(s, events, i);
    TakenIsFound(after, sessionId, key);
    if LookupQuantity(before, sessionId, key).Some? { QuantityAnswerStays(before, after, sessionId, key); }
    if LookupSeats(before, sessionId, key).Some? { SeatsAnswerStays(before, after, sessionId, key); }
  }
}
