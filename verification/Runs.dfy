/** What holds over whole runs of committed transactions, of any length. */
module Runs {
  import opened Schema
  import opened Invariant
  import opened Settlement
  import opened Serial

  /** The state after a run; an illegal operation cannot commit and changes nothing. */
  ghost function Replay(s: Tables, ops: seq<Op>): Tables {
    if ops == [] then s
    else
      var before := Replay(s, ops[..|ops| - 1]);
      if Legal(before, ops[|ops| - 1]) then Apply(before, ops[|ops| - 1]) else before
  }

  ghost predicate LegalRun(s: Tables, ops: seq<Op>) {
    forall i :: 0 <= i < |ops| ==> Legal(Replay(s, ops[..i]), ops[i])
  }

  lemma ReplayStep(s: Tables, ops: seq<Op>, i: nat)
    requires LegalRun(s, ops) && i < |ops|
    ensures Legal(Replay(s, ops[..i]), ops[i])
    ensures Replay(s, ops[..i + 1]) == Apply(Replay(s, ops[..i]), ops[i])
  {
    assert ops[..i + 1][..i] == ops[..i];
  }

  lemma {:induction false} RunKeepsInv(s: Tables, ops: seq<Op>, i: nat)
    requires Inv(s) && LegalRun(s, ops) && i <= |ops|
    ensures Inv(Replay(s, ops[..i]))
  {
    if i > 0 {
      RunKeepsInv(s, ops, i - 1);
      ReplayStep(s, ops, i - 1);
      ApplyKeepsInv(Replay(s, ops[..i - 1]), ops[i - 1]);
    }
  }

  // ---------- nothing is forgotten, and only `reserved` is ever left ----------

  predicate HeaderEvolves(a: Reservation, b: Reservation) {
    b == a || (a.status == Reserved && b == a.(status := b.status))
  }

  predicate ItemEvolves(a: Item, b: Item) {
    b == a || (a.status == Reserved && b == a.(status := b.status))
  }

  predicate HoldEvolves(a: Hold, b: Hold) {
    b == a || (a.status == Reserved && b == a.(status := b.status))
  }

  ghost predicate HeadersEvolve(s: Tables, s': Tables) {
    forall r :: r in s.reservations ==> r in s'.reservations && HeaderEvolves(s.reservations[r], s'.reservations[r])
  }

  ghost predicate ItemsEvolve(s: Tables, s': Tables) {
    && (forall i :: i in s.items ==> i in s'.items && ItemEvolves(s.items[i], s'.items[i]))
    && (forall i :: i in s'.items && i !in s.items ==> s'.items[i].reservationId !in s.reservations)
  }

  ghost predicate HoldsEvolve(s: Tables, s': Tables) {
    && (forall h :: h in s.holds ==> h in s'.holds && HoldEvolves(s.holds[h], s'.holds[h]))
    && (forall h :: h in s'.holds && h !in s.holds ==> s'.holds[h].reservationId !in s.reservations)
  }

  /**
   Rows are never deleted, children belong to their header for good, and confirmed, cancelled, expired are
   absorbing.
   */
  ghost predicate Evolves(s: Tables, s': Tables) {
    HeadersEvolve(s, s') && ItemsEvolve(s, s') && HoldsEvolve(s, s')
  }

  lemma EvolvesReflexive(s: Tables)
    ensures Evolves(s, s)
  {
  }

  lemma EvolvesTransitive(a: Tables, b: Tables, c: Tables)
    requires Evolves(a, b) && Evolves(b, c)
    ensures Evolves(a, c)
  {
    forall r | r in a.reservations ensures r in c.reservations && HeaderEvolves(a.reservations[r], c.reservations[r]) {
      assert r in b.reservations && HeaderEvolves(b.reservations[r], c.reservations[r]);
    }
    forall i | i in a.items ensures i in c.items && ItemEvolves(a.items[i], c.items[i]) {
      assert i in b.items && ItemEvolves(b.items[i], c.items[i]);
    }
    forall i | i in c.items && i !in a.items ensures c.items[i].reservationId !in a.reservations {
      assert i in b.items ==> ItemEvolves(b.items[i], c.items[i]);
    }
    forall h | h in a.holds ensures h in c.holds && HoldEvolves(a.holds[h], c.holds[h]) {
      assert h in b.holds && HoldEvolves(b.holds[h], c.holds[h]);
    }
    forall h | h in c.holds && h !in a.holds ensures c.holds[h].reservationId !in a.reservations {
      assert h in b.holds ==> HoldEvolves(b.holds[h], c.holds[h]);
    }
  }

  lemma SettleEvolves(s: Tables, rs: set<Id>, target: Status)
    ensures Evolves(s, Settle(s, rs, target))
  {
  }

  lemma InsertSeatsEvolves(s: Tables, op: Op)
    requires op.TakeSeats? && op.rid !in s.reservations && RowsFit(s, op.rid, op.rows, op.eventId, op.expiresAt)
    ensures Evolves(s, InsertSeats(s, op))
  {
  }

  lemma ApplyEvolves(s: Tables, op: Op)
    requires Legal(s, op)
    ensures Evolves(s, Apply(s, op))
  {
    match op
    case ReadOnly =>
    case TakeQuantity(_, _, _, _, _, _, _, _) =>
    case TakeSeats(_, _, _, _, _, _, _) =>
      var s1 := Settle(s, Leaving(s, op), Expired);
      SettleEvolves(s, Leaving(s, op), Expired);
      InsertSeatsEvolves(s1, op);
      EvolvesTransitive(s, s1, Apply(s, op));
    case Finish(rid, _, want, now) => SettleEvolves(s, {rid}, Outcome(s.reservations[rid], want, now));
    case ExpireBatch(rs, _) => SettleEvolves(s, rs, Expired);
  }

  lemma {:induction false} RunEvolves(s: Tables, ops: seq<Op>, i: nat, j: nat)
    requires LegalRun(s, ops) && i <= j <= |ops|
    ensures Evolves(Replay(s, ops[..i]), Replay(s, ops[..j]))
    decreases j
  {
    hide Evolves, LegalRun, Legal, Apply;
    if i == j {
      EvolvesReflexive(Replay(s, ops[..i]));
    } else {
      RunEvolves(s, ops, i, j - 1);
      ReplayStep(s, ops, j - 1);
      ApplyEvolves(Replay(s, ops[..j - 1]), ops[j - 1]);
      EvolvesTransitive(Replay(s, ops[..i]), Replay(s, ops[..j - 1]), Replay(s, ops[..j]));
    }
  }

  // ---------- a reservation leaves `reserved` at most once ----------

  lemma HoldersReserved(s: Tables, seats: set<Id>, listedAt: Time)
    requires Agrees(s)
    ensures forall r :: r in OverdueHolders(s, seats, listedAt) ==>
              r in s.reservations && s.reservations[r].status == Reserved
  {
    forall h | h in s.holds && s.holds[h].status == Reserved
      ensures s.holds[h].reservationId in s.reservations && s.reservations[s.holds[h].reservationId].status == Reserved
    {
      assert HoldAgrees(s, s.holds[h]);
    }
  }

  /** An operation moves the headers it says it moves, out of `reserved`, and no other. */
  lemma LeavingLeaves(s: Tables, op: Op)
    requires Inv(s) && Legal(s, op)
    ensures forall r :: r in Leaving(s, op) ==>
      r in s.reservations && s.reservations[r].status == Reserved && Apply(s, op).reservations[r].status != Reserved
    ensures forall r :: r in s.reservations && r !in Leaving(s, op) ==>
              Apply(s, op).reservations[r] == s.reservations[r]
  {
    hide Constraints, Conserved, Agrees, MarkedItems, MarkedHolds, OverdueHolders, RowsFit, Bookable, KeyTaken;
    if op.TakeSeats? { HoldersReserved(s, SeatsOf(op.rows), op.listedAt); }
  }

  lemma LeavesOnce(s: Tables, ops: seq<Op>, i: nat, j: nat)
    requires Inv(s) && LegalRun(s, ops) && i < j < |ops|
    ensures Leaving(Replay(s, ops[..i]), ops[i]) !! Leaving(Replay(s, ops[..j]), ops[j])
  {
    var a, b, c := Replay(s, ops[..i]), Replay(s, ops[..i + 1]), Replay(s, ops[..j]);
    RunKeepsInv(s, ops, i);
    RunKeepsInv(s, ops, j);
    ReplayStep(s, ops, i);
    ReplayStep(s, ops, j);
    LeavingLeaves(a, ops[i]);
    LeavingLeaves(c, ops[j]);
    RunEvolves(s, ops, i + 1, j);
    forall r | r in Leaving(a, ops[i]) ensures r !in Leaving(c, ops[j]) {
      assert r in b.reservations && HeaderEvolves(b.reservations[r], c.reservations[r]);
    }
  }

  // ---------- deadlines ----------

  /**
   An expiry was due at the clock reading the operation used; a cancellation or confirmation was not overdue
   at it.
   */
  predicate LeavesInTime(before: Reservation, after: Reservation, op: Op) {
    if after.status == Expired then
      (op.TakeSeats? && before.expiresAt <= op.listedAt)
      || (op.Finish? && before.expiresAt <= op.now)
      || (op.ExpireBatch? && before.expiresAt < op.now)
    else op.Finish? && after.status == op.want && op.now < before.expiresAt
  }

  lemma SweptInTime(s: Tables, seats: set<Id>, listedAt: Time, r: Id)
    requires Agrees(s) && r in OverdueHolders(s, seats, listedAt) && r in s.reservations
    ensures s.reservations[r].expiresAt <= listedAt
  {
    var h :| h in s.holds && s.holds[h].reservationId == r && s.holds[h].expiresAt <= listedAt;
    assert HoldAgrees(s, s.holds[h]);
  }

  lemma DeadlineRespected(s: Tables, op: Op, r: Id)
    requires Inv(s) && Legal(s, op) && r in Leaving(s, op)
    ensures r in s.reservations && r in Apply(s, op).reservations
    ensures LeavesInTime(s.reservations[r], Apply(s, op).reservations[r], op)
  {
    hide Constraints, Conserved, Agrees, MarkedItems, MarkedHolds, OverdueHolders, RowsFit, Bookable, KeyTaken;
    LeavingLeaves(s, op);
    if op.TakeSeats? { SweptInTime(s, SeatsOf(op.rows), op.listedAt, r); }
  }

  // ---------- idempotency ----------

  predicate Takes(op: Op, sessionId: Id, key: string) {
    (op.TakeQuantity? || op.TakeSeats?) && op.visitor.sessionId == sessionId && op.key == key
  }

  lemma TakenStays(s: Tables, s': Tables, sessionId: Id, key: string)
    requires Evolves(s, s') && KeyTaken(s, sessionId, key)
    ensures KeyTaken(s', sessionId, key)
  {
    var r :| r in s.reservations && s.reservations[r].sessionId == sessionId && s.reservations[r].key == key;
    assert r in s'.reservations && HeaderEvolves(s.reservations[r], s'.reservations[r]);
  }

  /** One (session, key) creates at most one reservation and consumes stock or seats at most once. */
  lemma OneTakePerKey(s: Tables, ops: seq<Op>, i: nat, j: nat, sessionId: Id, key: string)
    requires LegalRun(s, ops) && i < j < |ops| && Takes(ops[i], sessionId, key)
    ensures !Takes(ops[j], sessionId, key)
  {
    TakeTakesKey(s, ops, i, sessionId, key);
    RunEvolves(s, ops, i + 1, j);
    TakenStays(Replay(s, ops[..i + 1]), Replay(s, ops[..j]), sessionId, key);
    ReplayStep(s, ops, j);
  }

  lemma TakeTakesKey(s: Tables, ops: seq<Op>, i: nat, sessionId: Id, key: string)
    requires LegalRun(s, ops) && i < |ops| && Takes(ops[i], sessionId, key)
    ensures KeyTaken(Replay(s, ops[..i + 1]), sessionId, key)
  {
    ReplayStep(s, ops, i);
    var after := Replay(s, ops[..i + 1]);
    assert after.reservations[ops[i].rid].sessionId == sessionId && after.reservations[ops[i].rid].key == key;
  }
}
