/**
 Reservations get through. A quantity or seat transaction whose stock or seats are there, whose key is free and
 whose rows no other transaction has locked can run all its statements and commit, also when it works through a
 list of overdue holders that has gone stale. Every legal TakeQuantity and TakeSeats is what some run commits.
 */
module ReserveCompletion {
  import opened Schema
  import opened Ordering
  import opened Invariant
  import opened Serial
  import opened Queries
  import opened Booking
  import opened Machine
  import opened TxInvariant
  import opened Serializable
  import opened Completion

  // ---------- a quantity ----------

  function QuantityRequestOf(op: Op): Request
    requires op.TakeQuantity?
  {
    QuantityRequest(op.eventId, op.typeId, op.quantity, op.visitor, op.key, op.expiresAt)
  }

  /** The rows the transaction still has to lock or insert are locked by nobody else. */
  ghost predicate QuantityRowsFree(m: System, t: nat, op: Op)
    requires op.TakeQuantity?
  {
    {TypeRow(op.typeId), HeaderRow(op.rid), KeySlot(op.visitor.sessionId, op.key), ItemRow(op.iid)} !! Busy(m, t)
  }

  lemma QuantityStepsTo(c: Tables, busy: set<Row>, op: Op, w: Writes)
    requires op.TakeQuantity? && Legal(c, op)
    requires {TypeRow(op.typeId), HeaderRow(op.rid), KeySlot(op.visitor.sessionId, op.key), ItemRow(op.iid)} !! busy
    ensures var q := QuantityRequestOf(op);
            && (var p := QuantityStep(c, busy, q, w, Checked, 0); p.Some? && p.value.stage == StockTaken)
            && (var p := QuantityStep(c, busy, q, w, StockTaken, op.rid);
                p.Some? && p.value.stage == QuantityHeader(op.rid))
            && (var p := QuantityStep(c, busy, q, w, QuantityHeader(op.rid), op.iid);
                p.Some? && p.value.stage == QuantityDone(op.rid, op.iid))
  {
  }

  /** At any moment of any run a quantity transaction past its key read can commit what is legal now. */
  lemma QuantityCompletes(s: Tables, events: seq<Event>, t: nat, op: Op) returns (more: seq<Event>)
    requires Inv(s) && t in Run(s, events).txs && op.TakeQuantity? && Legal(Run(s, events).committed, op)
    requires Run(s, events).txs[t].request == QuantityRequestOf(op) && Run(s, events).txs[t].stage == Checked
    requires QuantityRowsFree(Run(s, events), t, op)
    ensures Run(s, events + more).history == Run(s, events).history + [op]
  {
    hide Run, Legal, QuantityStep, Busy, Inv;
    var m := Run(s, events);
    var a, b, d := Step(t, 0, 0), Step(t, 0, op.rid), Step(t, 0, op.iid);
    QuantityStepsTo(m.committed, Busy(m, t), op, m.txs[t].writes);
    OwnStep(s, events, t, 0, 0, StepOf(m, a).value);
    var m1 := Run(s, events + [a]);
    QuantityStepsTo(m.committed, Busy(m1, t), op, m1.txs[t].writes);
    OwnStep(s, events + [a], t, 0, op.rid, StepOf(m1, b).value);
    var m2 := Run(s, events + [a] + [b]);
    QuantityStepsTo(m.committed, Busy(m2, t), op, m2.txs[t].writes);
    OwnStep(s, events + [a] + [b], t, 0, op.iid, StepOf(m2, d).value);
    RunOneMore(s, events + [a] + [b] + [d], Commit(t));
    more := [a, b, d, Commit(t)];
    assert events + more == events + [a] + [b] + [d] + [Commit(t)];
  }

  /** Every legal quantity take is committed by some run of the machine, and by nothing else in it. */
  lemma TakeQuantityIsReachable(s: Tables, op: Op) returns (events: seq<Event>)
    requires Inv(s) && op.TakeQuantity? && Legal(s, op)
    ensures Run(s, events).history == [op] && Run(s, events).committed == Apply(s, op)
  {
    var q := QuantityRequestOf(op);
    var p := Progress(Checked, NoWrites(), {});
    NotReplayable(s, op.visitor, op.key, Quantity);
    hide Run, Legal, Inv, Apply;
    assert Advance(s, {}, Tx(q, Start, NoWrites(), {}), 0, 0) == Some(p);
    BeginAlone(s, q, 0, p);
    var start := [Begin(0, q), Step(0, 0, 0)];
    assert QuantityRowsFree(Run(s, start), 0, op);
    var more := QuantityCompletes(s, start, 0, op);
    events := start + more;
    OneCommit(s, events, op);
  }

  lemma NotReplayable(c: Tables, visitor: Visitor, key: string, kind: Kind)
    requires !KeyTaken(c, visitor.sessionId, key)
    ensures !Replayable(c, visitor, key, kind)
  {
  }

  // ---------- seats ----------

  function SeatsRequestOf(call: SeatsCall): Request {
    SeatsRequest(call.eventId, call.seatIds, call.visitor, call.key, call.expiresAt)
  }

  /** Lock the seats that are left, one by one. */
  lemma {:induction false} SeatsLock(s: Tables, events: seq<Event>, t: nat, call: SeatsCall) returns (more: seq<Event>)
    requires t in Run(s, events).txs && Run(s, events).txs[t].request == SeatsRequestOf(call)
    requires Run(s, events).txs[t].stage.LockingSeats? && !Run(s, events).txs[t].stage.missing
    requires Run(s, events).txs[t].stage.next <= |call.seatIds|
    requires SeatsExist(Run(s, events).committed, call.eventId, call.seatIds)
    requires forall seat :: seat in call.seatIds ==> SeatRow(seat) !in Busy(Run(s, events), t)
    ensures Ahead(Run(s, events), Run(s, events + more), t)
    ensures Run(s, events + more).txs[t].stage == LockingSeats(|call.seatIds|, false)
    decreases |call.seatIds| - Run(s, events).txs[t].stage.next
  {
    hide Run, Busy;
    var m := Run(s, events);
    if m.txs[t].stage.next == |call.seatIds| {
      more := [];
      assert events + more == events;
    } else {
      var p := StepOf(m, Step(t, 0, 0)).value;
      assert call.seatIds[m.txs[t].stage.next] in call.seatIds;
      assert StepOf(m, Step(t, 0, 0)).Some? && p.stage == LockingSeats(m.txs[t].stage.next + 1, false);
      OwnStep(s, events, t, 0, 0, p);
      var rest := SeatsLock(s, events + [Step(t, 0, 0)], t, call);
      more := [Step(t, 0, 0)] + rest;
      assert events + more == (events + [Step(t, 0, 0)]) + rest;
    }
  }

  ghost predicate HoldersFree(m: System, t: nat, holders: seq<Id>) {
    forall r :: r in holders ==> HeaderRow(r) !in Busy(m, t)
  }

  /** Lock the listed headers that are left, one by one. */
  lemma {:induction false} HoldersLock(s: Tables, events: seq<Event>, t: nat, call: SeatsCall)
    returns (more: seq<Event>)
    requires t in Run(s, events).txs && Run(s, events).txs[t].request == SeatsRequestOf(call)
    requires Run(s, events).txs[t].stage.LockingHolders?
    requires var st := Run(s, events).txs[t].stage;
             st.next <= |st.holders| && HoldersFree(Run(s, events), t, st.holders)
    ensures Ahead(Run(s, events), Run(s, events + more), t)
    ensures var st := Run(s, events).txs[t].stage;
            Run(s, events + more).txs[t].stage == LockingHolders(st.listedAt, st.holders, |st.holders|)
    decreases |Run(s, events).txs[t].stage.holders| - Run(s, events).txs[t].stage.next
  {
    hide Run, Busy;
    var m := Run(s, events);
    var st := m.txs[t].stage;
    if st.next == |st.holders| {
      more := [];
      assert events + more == events;
    } else {
      var p := StepOf(m, Step(t, 0, 0)).value;
      assert st.holders[st.next] in st.holders;
      assert StepOf(m, Step(t, 0, 0)).Some? && p.stage == LockingHolders(st.listedAt, st.holders, st.next + 1);
      OwnStep(s, events, t, 0, 0, p);
      var rest := HoldersLock(s, events + [Step(t, 0, 0)], t, call);
      more := [Step(t, 0, 0)] + rest;
      assert events + more == (events + [Step(t, 0, 0)]) + rest;
    }
  }

  /** The rows the transaction will insert are locked by nobody else. */
  ghost predicate InsertsFree(m: System, t: nat, call: SeatsCall) {
    && {HeaderRow(call.rid), KeySlot(call.visitor.sessionId, call.key)} !! Busy(m, t)
    && (forall j :: 0 <= j < |call.seatIds| ==> HoldRow(call.newIds(j)) !in Busy(m, t))
  }

  lemma SweepStepsTo(c: Tables, busy: set<Row>, q: Request, w: Writes, st: Stage)
    requires q.SeatsRequest?
    ensures st.LockingHolders? && st.next == |st.holders| ==>
              var p := SeatsStep(c, busy, q, w, st, 0, 0);
              p.Some? && p.value.stage == HoldersExpired(st.listedAt, st.holders)
    ensures st.HoldersExpired? ==>
              var p := SeatsStep(c, busy, q, w, st, 0, 0);
              p.Some? && p.value.stage == HeadersExpired(st.listedAt, st.holders)
  {
    hide HoldUpdates, HeaderUpdates, View, ToSet;
  }

  lemma HeaderStepTo(c: Tables, busy: set<Row>, call: SeatsCall, w: Writes, st: Stage)
    requires st.HeadersExpired? && call.rid !in c.reservations && !KeyTaken(c, call.visitor.sessionId, call.key)
    requires {HeaderRow(call.rid), KeySlot(call.visitor.sessionId, call.key)} !! busy
    ensures var p := SeatsStep(c, busy, SeatsRequestOf(call), w, st, 0, call.rid);
            p.Some? && p.value.stage == Inserting(st.listedAt, st.holders, call.rid, map[])
  {
  }

  lemma {:induction false} RowsCount(call: SeatsCall, n: nat)
    requires n <= |call.seatIds|
    requires forall j, k :: 0 <= j < k < |call.seatIds| ==> call.newIds(j) != call.newIds(k)
    ensures |call.Rows(n)| == n
    ensures n < |call.seatIds| ==> call.newIds(n) !in call.Rows(n)
  {
    RowsForAt(call, n);
    if n > 0 { RowsCount(call, n - 1); }
  }

  /** The n-th insert goes through when its seat is bookable, and leaves the rows as one more row each. */
  lemma InsertStepTo(c: Tables, busy: set<Row>, tx: Tx, call: SeatsCall, n: nat)
    requires Agrees(c) && TxOk(c, tx) && tx.request == SeatsRequestOf(call) && n < |call.seatIds|
    requires tx.stage.Inserting? && tx.stage.rid == call.rid && tx.stage.rows == call.Rows(n)
    requires FreshIds(c, call) && HoldRow(call.newIds(n)) !in busy
             && Bookable(c, ToSet(call.seatIds), tx.stage.listedAt)
    ensures var p := Advance(c, busy, tx, 0, call.newIds(n));
            p.Some? && p.value.stage == tx.stage.(rows := call.Rows(n + 1))
  {
    hide TxOk, Agrees, Advance, RowsFor;
    RowsCount(call, n);
    assert call.seatIds[n] in ToSet(call.seatIds);
    SeatInsertIff(c, tx, busy, 0, call.newIds(n));
    InsertedRow(c, busy, tx, call, n);
  }

  lemma InsertedRow(c: Tables, busy: set<Row>, tx: Tx, call: SeatsCall, n: nat)
    requires tx.request == SeatsRequestOf(call) && n < |call.seatIds|
    requires tx.stage.Inserting? && tx.stage.rid == call.rid && tx.stage.rows == call.Rows(n) && |call.Rows(n)| == n
    ensures var p := Advance(c, busy, tx, 0, call.newIds(n));
            p.Some? ==> p.value.stage == tx.stage.(rows := call.Rows(n + 1))
  {
    hide HoldUpdates, HeaderUpdates, View, OverdueHolders, KeyTaken, Replayable, SettleStep, QuantityStep;
  }

  /** The transaction is inserting the rows of this call, n of them so far. */
  ghost predicate InsertingFor(m: System, t: nat, call: SeatsCall, n: nat) {
    && t in m.txs && m.txs[t].request == SeatsRequestOf(call) && n <= |call.seatIds|
    && m.txs[t].stage.Inserting? && m.txs[t].stage.listedAt == call.listedAt
    && m.txs[t].stage.rid == call.rid && m.txs[t].stage.rows == call.Rows(n)
  }

  /** Insert the rows that are left, and commit. */
  lemma {:induction false} InsertsComplete(s: Tables, events: seq<Event>, t: nat, call: SeatsCall, n: nat)
    returns (more: seq<Event>)
    requires Inv(s) && InsertingFor(Run(s, events), t, call, n)
    requires FreshIds(Run(s, events).committed, call) && InsertsFree(Run(s, events), t, call)
    requires Bookable(Run(s, events).committed, ToSet(call.seatIds), call.listedAt)
    ensures Run(s, events + more).history == Run(s, events).history + [call.Op()]
    decreases |call.seatIds| - n
  {
    hide Run, Inv, TxOk, Advance, Busy, FreshIds, Bookable, RowsFor, View;
    var m := Run(s, events);
    if n == |call.seatIds| {
      FreshDistinct(m.committed, call);
      RowsCount(call, n);
      RunOneMore(s, events, Commit(t));
      more := [Commit(t)];
    } else {
      RunAgrees(s, events, t);
      InsertStepTo(m.committed, Busy(m, t), m.txs[t], call, n);
      var e := Step(t, 0, call.newIds(n));
      OwnStep(s, events, t, 0, call.newIds(n), StepOf(m, e).value);
      var rest := InsertsComplete(s, events + [e], t, call, n + 1);
      more := [e] + rest;
      assert events + more == (events + [e]) + rest;
    }
  }

  lemma FreshDistinct(c: Tables, call: SeatsCall)
    requires FreshIds(c, call)
    ensures forall j, k :: 0 <= j < k < |call.seatIds| ==> call.newIds(j) != call.newIds(k)
  {
  }

  lemma RunAgrees(s: Tables, events: seq<Event>, t: nat)
    requires Inv(s) && t in Run(s, events).txs
    ensures Agrees(Run(s, events).committed) && TxOk(Run(s, events).committed, Run(s, events).txs[t])
  {
    RunOk(s, events);
  }

  /**
   At any moment of any run, with a list that may have gone stale, a seat transaction can lock the listed headers,
   sweep, insert and commit, when its seats are bookable, its key is free and no other transaction has its rows.
   */
  lemma SeatsComplete(s: Tables, events: seq<Event>, t: nat, call: SeatsCall) returns (more: seq<Event>)
    requires Inv(s) && t in Run(s, events).txs && Run(s, events).txs[t].request == SeatsRequestOf(call)
    requires var st := Run(s, events).txs[t].stage;
             st.LockingHolders? && st.listedAt == call.listedAt && HoldersFree(Run(s, events), t, st.holders)
    requires FreshIds(Run(s, events).committed, call) && InsertsFree(Run(s, events), t, call)
    requires !KeyTaken(Run(s, events).committed, call.visitor.sessionId, call.key)
    requires Bookable(Run(s, events).committed, ToSet(call.seatIds), call.listedAt)
    ensures Run(s, events + more).history == Run(s, events).history + [call.Op()]
  {
    hide Run, Inv, SeatsStep, Busy, Bookable, KeyTaken;
    HoldersLeft(s, events, t);
    var locks := HoldersLock(s, events, t, call);
    var at := events + locks;
    var m1 := Run(s, at);
    SweepStepsTo(m1.committed, Busy(m1, t), m1.txs[t].request, m1.txs[t].writes, m1.txs[t].stage);
    OwnStep(s, at, t, 0, 0, StepOf(m1, Step(t, 0, 0)).value);
    var m2 := Run(s, at + [Step(t, 0, 0)]);
    SweepStepsTo(m2.committed, Busy(m2, t), m2.txs[t].request, m2.txs[t].writes, m2.txs[t].stage);
    OwnStep(s, at + [Step(t, 0, 0)], t, 0, 0, StepOf(m2, Step(t, 0, 0)).value);
    var swept := at + [Step(t, 0, 0)] + [Step(t, 0, 0)];
    var m3 := Run(s, swept);
    HeaderStepTo(m3.committed, Busy(m3, t), call, m3.txs[t].writes, m3.txs[t].stage);
    OwnStep(s, swept, t, 0, call.rid, StepOf(m3, Step(t, 0, call.rid)).value);
    var rest := InsertsComplete(s, swept + [Step(t, 0, call.rid)], t, call, 0);
    more := locks + [Step(t, 0, 0)] + [Step(t, 0, 0)] + [Step(t, 0, call.rid)] + rest;
    assert events + more == (swept + [Step(t, 0, call.rid)]) + rest;
  }

  lemma ListStepTo(c: Tables, busy: set<Row>, call: SeatsCall, w: Writes, st: Stage)
    ensures st.Checked? ==> SeatsStep(c, busy, SeatsRequestOf(call), w, st, 0, 0)
                            == Some(Progress(LockingSeats(0, false), w, {}))
    ensures st == LockingSeats(|call.seatIds|, false) ==>
              var p := SeatsStep(c, busy, SeatsRequestOf(call), w, st, call.listedAt, 0);
              && p.Some? && p.value.stage.LockingHolders? && p.value.stage.listedAt == call.listedAt
              && p.value.stage.next == 0
              && forall r :: r in p.value.stage.holders ==>
                   exists h :: h in c.holds && HeldPast(c.holds[h], r, call.seatIds, call.listedAt)
  {
    OverdueHoldersAre(c, call.seatIds, call.listedAt);
    hide OverdueHolders, ToSet;
  }

  /** The seats, and the headers of the overdue holds on them, are locked by nobody else. */
  ghost predicate SeatRowsFree(m: System, t: nat, call: SeatsCall) {
    && (forall seat :: seat in call.seatIds ==> SeatRow(seat) !in Busy(m, t))
    && (forall h, r ::
          h in m.committed.holds && HeldPast(m.committed.holds[h], r, call.seatIds, call.listedAt) ==>
          HeaderRow(r) !in Busy(m, t))
  }

  /** At any moment of any run a seat transaction past its key read can commit what is legal now. */
  lemma SeatRequestCompletes(s: Tables, events: seq<Event>, t: nat, call: SeatsCall) returns (more: seq<Event>)
    requires Inv(s) && t in Run(s, events).txs
    requires Run(s, events).txs[t].request == SeatsRequestOf(call) && Run(s, events).txs[t].stage == Checked
    requires Legal(Run(s, events).committed, call.Op()) && FreshIds(Run(s, events).committed, call)
    requires SeatRowsFree(Run(s, events), t, call) && InsertsFree(Run(s, events), t, call)
    ensures Run(s, events + more).history == Run(s, events).history + [call.Op()]
  {
    hide Run, Inv, SeatsStep, Busy, Bookable, KeyTaken, RowsFor, SeatsOf;
    var m := Run(s, events);
    LegalCall(s, events, t, call);
    ListStepTo(m.committed, Busy(m, t), call, m.txs[t].writes, Checked);
    OwnStep(s, events, t, 0, 0, StepOf(m, Step(t, 0, 0)).value);
    var locks := SeatsLock(s, events + [Step(t, 0, 0)], t, call);
    var locked := events + [Step(t, 0, 0)] + locks;
    var m1 := Run(s, locked);
    var e := Step(t, call.listedAt, 0);
    ListStepTo(m1.committed, Busy(m1, t), call, m1.txs[t].writes, m1.txs[t].stage);
    OwnStep(s, locked, t, call.listedAt, 0, StepOf(m1, e).value);
    var rest := SeatsComplete(s, locked + [e], t, call);
    more := [Step(t, 0, 0)] + locks + [e] + rest;
    assert events + more == (locked + [e]) + rest;
  }

  lemma LegalCall(s: Tables, events: seq<Event>, t: nat, call: SeatsCall)
    requires Inv(s) && t in Run(s, events).txs && Run(s, events).txs[t].request == SeatsRequestOf(call)
    requires Legal(Run(s, events).committed, call.Op()) && FreshIds(Run(s, events).committed, call)
    ensures SeatsExist(Run(s, events).committed, call.eventId, call.seatIds)
    ensures !KeyTaken(Run(s, events).committed, call.visitor.sessionId, call.key)
    ensures Bookable(Run(s, events).committed, ToSet(call.seatIds), call.listedAt)
  {
    hide Run, Inv, Bookable, KeyTaken, RowsFor, SeatsOf, ToSet, RowsFit;
    RunAgrees(s, events, t);
    LegalSeatsExist(Run(s, events).committed, call);
    RowsForFit(Run(s, events).committed, call);
  }

  lemma HoldersLeft(s: Tables, events: seq<Event>, t: nat)
    requires Inv(s) && t in Run(s, events).txs && Run(s, events).txs[t].request.SeatsRequest?
    requires Run(s, events).txs[t].stage.LockingHolders?
    ensures Run(s, events).txs[t].stage.next <= |Run(s, events).txs[t].stage.holders|
  {
    RunAgrees(s, events, t);
  }

  // ---------- every legal seat take ----------

  ghost function HoldFor(rows: map<Id, Hold>, seat: Id): Id {
    if exists h :: h in rows && rows[h].seatId == seat then
      var h :| h in rows && rows[h].seatId == seat;
      h
    else 0
  }

  /** The request, clock readings and generated ids that lead to this operation. */
  ghost function CallOf(op: Op): SeatsCall
    requires op.TakeSeats?
  {
    var seatIds := ById(SeatsOf(op.rows));
    SeatsCall(op.eventId, seatIds, op.visitor, op.key, op.expiresAt, op.listedAt, op.rid,
      (j: nat) => if j < |seatIds| then HoldFor(op.rows, seatIds[j]) else 0)
  }

  lemma CallSeats(s: Tables, op: Op)
    requires op.TakeSeats? && RowsFit(s, op.rid, op.rows, op.eventId, op.expiresAt)
    ensures var call := CallOf(op);
            && Ascending(call.seatIds) && call.seatIds != [] && ToSet(call.seatIds) == SeatsOf(op.rows)
            && SeatsExist(s, op.eventId, call.seatIds)
  {
    var h :| h in op.rows;
    assert op.rows[h].seatId in SeatsOf(op.rows);
  }

  lemma CallIds(s: Tables, op: Op)
    requires op.TakeSeats? && RowsFit(s, op.rid, op.rows, op.eventId, op.expiresAt) && op.rid !in s.reservations
    ensures var call := CallOf(op);
            && (forall j :: 0 <= j < |call.seatIds| ==>
                  call.newIds(j) in op.rows && op.rows[call.newIds(j)].seatId == call.seatIds[j])
            && FreshIds(s, call)
  {
    var call := CallOf(op);
    forall j | 0 <= j < |call.seatIds|
      ensures call.newIds(j) in op.rows && op.rows[call.newIds(j)].seatId == call.seatIds[j]
    {
      assert call.seatIds[j] in SeatsOf(op.rows);
    }
  }

  /** Rows that reserve the requested seats, one each, under the generated ids are the rows the loop makes. */
  lemma RowsAreMade(call: SeatsCall, rows: map<Id, Hold>)
    requires forall j, k :: 0 <= j < k < |call.seatIds| ==> call.newIds(j) != call.newIds(k)
    requires forall j :: 0 <= j < |call.seatIds| ==>
               call.newIds(j) in rows
               && rows[call.newIds(j)] == Hold(call.rid, call.seatIds[j], Reserved, call.expiresAt)
    requires forall h :: h in rows ==> exists j :: 0 <= j < |call.seatIds| && call.newIds(j) == h
    ensures call.Rows(|call.seatIds|) == rows
  {
    hide RowsFor;
    var made := call.Rows(|call.seatIds|);
    RowsForAt(call, |call.seatIds|);
    forall h | h in made ensures h in rows && made[h] == rows[h] {
      var j :| 0 <= j < |call.seatIds| && call.newIds(j) == h;
    }
    forall h | h in rows ensures h in made {
      var j :| 0 <= j < |call.seatIds| && call.newIds(j) == h;
    }
  }

  lemma RowHasIndex(s: Tables, op: Op, h: Id)
    requires op.TakeSeats? && RowsFit(s, op.rid, op.rows, op.eventId, op.expiresAt) && op.rid !in s.reservations
             && h in op.rows
    ensures var call := CallOf(op); exists j :: 0 <= j < |call.seatIds| && call.newIds(j) == h
  {
    CallIds(s, op);
    hide CallOf;
    var call := CallOf(op);
    assert op.rows[h].seatId in ToSet(call.seatIds) by { CallSeats(s, op); }
    var j :| 0 <= j < |call.seatIds| && call.seatIds[j] == op.rows[h].seatId;
    assert call.newIds(j) == h;
  }

  lemma CallRows(s: Tables, op: Op)
    requires op.TakeSeats? && RowsFit(s, op.rid, op.rows, op.eventId, op.expiresAt) && op.rid !in s.reservations
    ensures CallOf(op).Op() == op
  {
    hide RowsFor, ById;
    var call := CallOf(op);
    CallIds(s, op);
    FreshDistinct(s, call);
    forall h | h in op.rows
      ensures exists j :: 0 <= j < |call.seatIds| && call.newIds(j) == h { RowHasIndex(s, op, h); }
    RowsAreMade(call, op.rows);
  }

  lemma CheckedStep(c: Tables, call: SeatsCall)
    requires !KeyTaken(c, call.visitor.sessionId, call.key)
    ensures Advance(c, {}, Tx(SeatsRequestOf(call), Start, NoWrites(), {}), 0, 0)
         == Some(Progress(Checked, NoWrites(), {}))
  {
    NotReplayable(c, call.visitor, call.key, Seats);
  }

  lemma AloneNothingBusy(m: System, t: nat, tx: Tx)
    requires m.txs == map[t := tx]
    ensures Busy(m, t) == {}
  {
  }

  /** Every legal seat take, with whatever ids, is committed by some run of the machine, and by nothing else in it. */
  lemma TakeSeatsIsReachable(s: Tables, op: Op) returns (events: seq<Event>)
    requires Inv(s) && op.TakeSeats? && Legal(s, op)
    ensures Run(s, events).history == [op] && Run(s, events).committed == Apply(s, op)
  {
    hide Run, Inv, Apply, CallOf, FreshIds, Bookable, KeyTaken, RowsFit, Busy, ById, RowsFor, OverdueHolders, SeatsOf;
    hide ToSet;
    var call := CallOf(op);
    CallSeats(s, op);
    CallIds(s, op);
    CallRows(s, op);
    var q, p := SeatsRequestOf(call), Progress(Checked, NoWrites(), {});
    CheckedStep(s, call);
    BeginAlone(s, q, 0, p);
    var start := [Begin(0, q), Step(0, 0, 0)];
    AloneNothingBusy(Run(s, start), 0, Stepped(Tx(q, Start, NoWrites(), {}), p));
    var more := SeatRequestCompletes(s, start, 0, call);
    events := start + more;
    OneCommit(s, events, op);
  }
}
