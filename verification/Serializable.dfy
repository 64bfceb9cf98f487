/**
 Every interleaving of statements, of any number of transactions of every kind, commits exactly what a
 serial run of the same transactions in commit order commits.
 */
module Serializable {
  import opened Schema
  import opened Invariant
  import opened Serial
  import opened Runs
  import opened Machine
  import opened TxInvariant
  import opened TxStable
  import opened TxSettles
  import opened TxReserves
  import opened TxCommit

  /** No row is locked by two transactions. */
  ghost predicate Exclusive(m: System) {
    forall t, u :: t in m.txs && u in m.txs && t != u ==> m.txs[t].rows !! m.txs[u].rows
  }

  ghost predicate SystemOk(s: Tables, m: System) {
    && Inv(m.committed)
    && LegalRun(s, m.history)
    && m.committed == Replay(s, m.history)
    && Exclusive(m)
    && (forall t :: t in m.txs ==> TxOk(m.committed, m.txs[t]))
  }

  /** A statement locks no row that is locked elsewhere. */
  lemma TakesFree(c: Tables, busy: set<Row>, tx: Tx, now: Time, newId: Id, p: Progress)
    requires Advance(c, busy, tx, now, newId) == Some(p)
    ensures p.takes !! busy
  {
    if tx.stage.Settling? {
      SettleTakesFree(c, busy, tx.writes, tx.stage, p);
    } else if tx.request.BatchRequest? {
      BatchTakesFree(c, busy, tx.request, tx.writes, now, p);
    } else if tx.request.SeatsRequest? {
      SeatsTakesFree(c, busy, tx.request, tx.writes, tx.stage, now, newId, p);
    }
  }

  lemma SettleTakesFree(c: Tables, busy: set<Row>, w: Writes, st: Stage, p: Progress)
    requires st.Settling? && SettleStep(c, busy, w, st) == Some(p)
    ensures p.takes !! busy
  {
    hide ItemUpdates, HoldUpdates, View, ListItems;
  }

  lemma BatchTakesFree(c: Tables, busy: set<Row>, q: Request, w: Writes, now: Time, p: Progress)
    requires q.BatchRequest? && LockBatch(c, busy, q, w, now) == Some(p)
    ensures p.takes !! busy
  {
    var ids := Ordering.OrderBy(Due(c, busy, now), Deadlines(c));
    forall x | x in p.takes ensures x !in busy {
      var r :| r in p.stage.queue && x == HeaderRow(r);
      assert r in ids;
      assert r in Due(c, busy, now);
    }
  }

  lemma SeatsTakesFree(c: Tables, busy: set<Row>, q: Request, w: Writes, st: Stage, now: Time, newId: Id, p: Progress)
    requires q.SeatsRequest? && SeatsStep(c, busy, q, w, st, now, newId) == Some(p)
    ensures p.takes !! busy
  {
    hide HeaderUpdates, HoldUpdates, View, OverdueHolders, KeyTaken, Replayable;
  }

  lemma BeginOk(s: Tables, m: System, e: Event)
    requires SystemOk(s, m) && e.Begin? && Enabled(m, e)
    ensures SystemOk(s, Do(m, e))
  {
    hide Inv, LegalRun, Replay;
    var m' := Do(m, e);
    forall t | t in m'.txs ensures TxOk(m'.committed, m'.txs[t]) {
      if t == e.t { StartOk(m.committed, e.request); } else { assert t in m.txs; }
    }
  }

  lemma StartOk(c: Tables, q: Request)
    requires WellFormed(q)
    ensures TxOk(c, Tx(q, Start, NoWrites(), {}))
  {
  }

  lemma StatementOk(s: Tables, m: System, e: Event)
    requires SystemOk(s, m) && e.Step? && Enabled(m, e)
    ensures SystemOk(s, Do(m, e))
  {
    hide LegalRun, Replay, Advance, TxOk, Conserved, Constraints, Agrees;
    var m' := Do(m, e);
    var p := StepOf(m, e).value;
    StepOk(m.committed, Busy(m, e.t), m.txs[e.t], e.now, e.newId, p);
    TakesFree(m.committed, Busy(m, e.t), m.txs[e.t], e.now, e.newId, p);
    forall u | u in m.txs && u != e.t ensures m'.txs[e.t].rows !! m.txs[u].rows {
      forall x | x in m.txs[u].rows ensures x !in p.takes { assert x in Busy(m, e.t); }
    }
  }

  lemma CommitOk(s: Tables, m: System, e: Event)
    requires SystemOk(s, m) && e.Commit? && Enabled(m, e)
    ensures SystemOk(s, Do(m, e))
  {
    hide TxOk, Conserved, Constraints, Agrees, Legal, Apply, View, Finished, OpOf;
    var c, tx, m' := m.committed, m.txs[e.t], Do(m, e);
    var op := OpOf(tx);
    TxCommits(c, tx);
    ApplyKeepsInv(c, op);
    TxFootprint(c, tx);
    forall t | t in m'.txs ensures TxOk(m'.committed, m'.txs[t]) {
      CommitKeeps(c, tx.rows, tx.writes, m.txs[t].rows);
      TxKept(c, m'.committed, m.txs[t]);
    }
    LegalRunExtends(s, m.history, op);
  }

  lemma LegalRunExtends(s: Tables, ops: seq<Op>, op: Op)
    requires LegalRun(s, ops) && Legal(Replay(s, ops), op)
    ensures LegalRun(s, ops + [op]) && Replay(s, ops + [op]) == Apply(Replay(s, ops), op)
  {
    var more := ops + [op];
    assert more[..|ops|] == ops;
    forall i | 0 <= i < |more| ensures Legal(Replay(s, more[..i]), more[i]) {
      if i < |ops| { assert more[..i] == ops[..i]; }
    }
    assert more[..|more| - 1] == ops;
  }

  lemma EventOk(s: Tables, m: System, e: Event)
    requires SystemOk(s, m) && Enabled(m, e)
    ensures SystemOk(s, Do(m, e))
  {
    match e
    case Begin(_, _) => BeginOk(s, m, e);
    case Step(_, _, _) => StatementOk(s, m, e);
    case Commit(_) => CommitOk(s, m, e);
    case Rollback(_) =>
  }

  lemma {:induction false} RunOk(s: Tables, events: seq<Event>)
    requires Inv(s)
    ensures SystemOk(s, Run(s, events))
  {
    hide Inv, Legal, Apply;
    if events != [] {
      var before, e := events[..|events| - 1], events[|events| - 1];
      RunOk(s, before);
      if Enabled(Run(s, before), e) { EventOk(s, Run(s, before), e); }
    } else {
      assert Replay(s, []) == s;
    }
  }

  // ---------- the theorems ----------

  /**
   Serialisability. After any interleaving the committed database is the result of running the committed
   transactions one at a time in commit order, each of them legal where it runs; and it satisfies the
   invariant: counters equal to their item rows, one active hold per seat, headers and children agreeing.
   */
  lemma InterleavingsSerialise(s: Tables, events: seq<Event>)
    requires Inv(s)
    ensures var m := Run(s, events);
            LegalRun(s, m.history) && m.committed == Replay(s, m.history) && Inv(m.committed)
  {
    RunOk(s, events);
  }

  lemma {:induction false} HistoryGrows(s: Tables, events: seq<Event>, i: nat)
    requires i <= |events|
    ensures Run(s, events[..i]).history <= Run(s, events).history
    decreases |events|
  {
    if i < |events| {
      var before := events[..|events| - 1];
      HistoryGrows(s, before, i);
      assert before[..i] == events[..i];
    } else {
      assert events[..i] == events;
    }
  }

  /** Between any two moments of an interleaved run no row is lost and confirmed, cancelled, expired are absorbing. */
  lemma InterleavingsEvolve(s: Tables, events: seq<Event>, i: nat)
    requires Inv(s) && i <= |events|
    ensures Evolves(Run(s, events[..i]).committed, Run(s, events).committed)
  {
    var a, b := Run(s, events[..i]), Run(s, events);
    RunOk(s, events[..i]);
    RunOk(s, events);
    HistoryGrows(s, events, i);
    assert b.history[..|a.history|] == a.history;
    assert b.history[..|b.history|] == b.history;
    RunEvolves(s, b.history, |a.history|, |b.history|);
  }

  /** In an interleaved run a reservation leaves `reserved` in at most one committed transaction. */
  lemma InterleavingsSettleOnce(s: Tables, events: seq<Event>, i: nat, j: nat)
    requires Inv(s) && i < j < |Run(s, events).history|
    ensures var ops := Run(s, events).history;
            Leaving(Replay(s, ops[..i]), ops[i]) !! Leaving(Replay(s, ops[..j]), ops[j])
  {
    RunOk(s, events);
    LeavesOnce(s, Run(s, events).history, i, j);
  }

  /** In an interleaved run one (session, key) takes stock or seats in at most one committed transaction. */
  lemma InterleavingsTakeOnce(s: Tables, events: seq<Event>, i: nat, j: nat, sessionId: Id, key: string)
    requires Inv(s) && i < j < |Run(s, events).history| && Takes(Run(s, events).history[i], sessionId, key)
    ensures !Takes(Run(s, events).history[j], sessionId, key)
  {
    RunOk(s, events);
    OneTakePerKey(s, Run(s, events).history, i, j, sessionId, key);
  }

  /**
   In an interleaved run nothing expires before its deadline, by worker, cancel, confirm or seat sweep, and
   nothing is cancelled or confirmed once the deadline has been read as passed.
   */
  lemma InterleavingsRespectDeadlines(s: Tables, events: seq<Event>, i: nat, r: Id)
    requires Inv(s) && i < |Run(s, events).history|
    requires var ops := Run(s, events).history; r in Leaving(Replay(s, ops[..i]), ops[i])
    ensures var ops := Run(s, events).history;
            var before, after, op := Replay(s, ops[..i]), Replay(s, ops[..i + 1]), ops[i];
            && r in before.reservations && r in after.reservations
            && LeavesInTime(before.reservations[r], after.reservations[r], op)
  {
    hide Inv, LegalRun, Run, Leaving, Legal, Apply;
    RunOk(s, events);
    var ops := Run(s, events).history;
    RunKeepsInv(s, ops, i);
    ReplayStep(s, ops, i);
    DeadlineRespected(Replay(s, ops[..i]), ops[i], r);
  }

  /**
   In an interleaved run the next statement of a cancel, confirm or worker batch is stopped exactly when it is
   the UPDATE of a counter that another transaction has locked: it never fails its guard or finds nothing to move.
   */
  lemma InterleavingsNeverBreak(s: Tables, events: seq<Event>, t: nat, busy: set<Row>)
    requires Inv(s) && t in Run(s, events).txs
    requires var st := Run(s, events).txs[t].stage; st.Settling? && st.done < |st.queue|
    ensures var m := Run(s, events);
            SettleStep(m.committed, busy, m.txs[t].writes, m.txs[t].stage).None?
            <==> WaitsForCounter(m.committed, busy, m.txs[t].stage)
  {
    hide Run, SettleStep, WaitsForCounter, Conserved, Constraints, Agrees;
    RunOk(s, events);
    var m := Run(s, events);
    var tx := m.txs[t];
    OnlySettlersSettle(m.committed, tx);
    SettleStopsOnlyOnCounter(m.committed, tx.rows, busy, tx.request, tx.writes, tx.stage);
  }

  /**
   The seat sweep with a stale list. A listed reservation that has left `reserved` since the listing is not
   touched: neither its header nor any of its holds is written by the sweep.
   */
  lemma InterleavingsSpareSettled(s: Tables, events: seq<Event>, t: nat, r: Id)
    requires Inv(s) && t in Run(s, events).txs
    requires var st := Run(s, events).txs[t].stage;
             (st.HoldersExpired? || st.HeadersExpired? || st.Inserting?) && r in st.holders
    requires var c := Run(s, events).committed; r in c.reservations && c.reservations[r].status != Reserved
    ensures var m := Run(s, events);
            && r !in m.txs[t].writes.headers
            && forall h :: h in m.committed.holds && m.committed.holds[h].reservationId == r ==>
                 h !in m.txs[t].writes.holds
  {
    RunOk(s, events);
    var m := Run(s, events);
    Untouched(m.committed, m.txs[t], r);
  }

  lemma Untouched(c: Tables, tx: Tx, r: Id)
    requires Agrees(c) && TxOk(c, tx)
    requires r in c.reservations && c.reservations[r].status != Reserved
    ensures r !in tx.writes.headers
    ensures forall h :: h in c.holds && c.holds[h].reservationId == r ==> h !in tx.writes.holds
  {
    TxFootprint(c, tx);
    assert r in tx.writes.headers ==> HeaderWriteOk(c, tx.rows, r, tx.writes.headers[r]);
    forall h | h in c.holds && c.holds[h].reservationId == r ensures h !in tx.writes.holds {
      assert HoldAgrees(c, c.holds[h]);
      assert h in tx.writes.holds ==> HoldWriteOk(c, tx.rows, h, tx.writes.holds[h]);
    }
  }

  /** A hold of a seat request's own seat that is active and not due is not among the listed holders' holds. */
  lemma NotDueNotListed(c: Tables, mine: set<Row>, q: Request, listedAt: Time, holders: seq<Id>, h: Id)
    requires Agrees(c) && q.SeatsRequest? && HoldersOk(c, mine, q, listedAt, holders, |holders|)
    requires h in c.holds && Active(c.holds[h].status)
             && !(c.holds[h].status == Reserved && c.holds[h].expiresAt <= listedAt)
    ensures h !in HoldUpdates(c.holds, Ordering.ToSet(holders), Expired)
  {
    assert HoldAgrees(c, c.holds[h]);
    if c.holds[h].reservationId in holders { assert Listed(c, c.holds[h].reservationId, q.seatIds, listedAt); }
  }

  lemma SeatBlocked(c: Tables, tx: Tx, h: Id)
    requires Agrees(c) && TxOk(c, tx) && tx.request.SeatsRequest? && tx.stage.Inserting?
    requires h in c.holds && Active(c.holds[h].status)
    requires !(c.holds[h].status == Reserved && c.holds[h].expiresAt <= tx.stage.listedAt)
    ensures ActiveOn(View(c, tx.writes), h, c.holds[h].seatId)
  {
    var st := tx.stage;
    NotDueNotListed(c, tx.rows, tx.request, st.listedAt, st.holders, h);
    RowsFresh(c, tx.rows, tx.request, st.holders, st.rid, st.rows);
    assert h !in tx.writes.holds;
  }

  /** A bookable seat is clear of the committed holds once those of the listed holders are expired ... */
  lemma SweptSeatClear(c: Tables, w: Writes, seatIds: seq<Id>, listedAt: Time, holders: seq<Id>, rows: map<Id, Hold>,
                       seat: Id, h: Id)
    requires SweptWrites(c, w, holders, rows) && Covers(c, seatIds, listedAt, holders) && seat in seatIds
    requires Bookable(c, {seat}, listedAt) && h !in rows
    ensures !ActiveOn(View(c, w), h, seat)
  {
    if h in c.holds && c.holds[h].seatId == seat && Active(c.holds[h].status) {
      assert c.holds[h].reservationId in Ordering.ToSet(holders);
    }
  }

  /** ... and of the rows inserted so far, which are for earlier seats. */
  lemma RowsElsewhere(c: Tables, mine: set<Row>, q: Request, holders: seq<Id>, rid: Id, rows: map<Id, Hold>, h: Id)
    requires WellFormed(q) && q.SeatsRequest? && RowsOk(c, mine, q, holders, rid, rows) && |rows| < |q.seatIds|
             && h in rows
    ensures rows[h].seatId != q.seatIds[|rows|]
  {
    var j :| 0 <= j < |rows| && q.seatIds[..|rows|][j] == rows[h].seatId;
    assert q.seatIds[j] < q.seatIds[|rows|];
  }

  lemma SeatClear(c: Tables, tx: Tx, h: Id)
    requires TxOk(c, tx) && tx.request.SeatsRequest? && tx.stage.Inserting? && |tx.stage.rows| < |tx.request.seatIds|
    requires Bookable(c, {tx.request.seatIds[|tx.stage.rows|]}, tx.stage.listedAt)
    ensures !ActiveOn(View(c, tx.writes), h, tx.request.seatIds[|tx.stage.rows|])
  {
    hide HeaderUpdates, HoldUpdates, HeaderFresh, RowsOk, Covers, Listed, SeatsLocked, Bookable;
    var q, st := tx.request, tx.stage;
    if h in st.rows {
      RowsElsewhere(c, tx.rows, q, st.holders, st.rid, st.rows, h);
      assert View(c, tx.writes).holds[h] == st.rows[h];
    } else {
      SweptSeatClear(c, tx.writes, q.seatIds, st.listedAt, st.holders, st.rows, q.seatIds[|st.rows|], h);
    }
  }

  /**
   In any interleaved run the insert for a seat goes through exactly when that seat has, among the committed
   rows, no confirmed hold and no reserved hold due after the listing.
   */
  lemma InterleavingsSeatInsert(s: Tables, events: seq<Event>, t: nat, busy: set<Row>, now: Time, newId: Id)
    requires Inv(s) && t in Run(s, events).txs && Run(s, events).txs[t].stage.Inserting?
    requires var m := Run(s, events);
             && m.txs[t].request.SeatsRequest? && |m.txs[t].stage.rows| < |m.txs[t].request.seatIds|
             && newId !in m.committed.holds && newId !in m.txs[t].stage.rows && HoldRow(newId) !in busy
    ensures var m := Run(s, events);
            Advance(m.committed, busy, m.txs[t], now, newId).Some?
            <==> Bookable(m.committed, {m.txs[t].request.seatIds[|m.txs[t].stage.rows|]}, m.txs[t].stage.listedAt)
  {
    RunOk(s, events);
    SeatInsertIff(Run(s, events).committed, Run(s, events).txs[t], busy, now, newId);
  }

  lemma InsertNeedsClearSeat(c: Tables, tx: Tx, busy: set<Row>, now: Time, newId: Id)
    requires tx.request.SeatsRequest? && tx.stage.Inserting? && |tx.stage.rows| < |tx.request.seatIds|
    requires newId !in c.holds && newId !in tx.stage.rows && HoldRow(newId) !in busy
    ensures Advance(c, busy, tx, now, newId).Some?
            <==> !exists h :: ActiveOn(View(c, tx.writes), h, tx.request.seatIds[|tx.stage.rows|])
  {
    hide View, ActiveOn, HoldUpdates, HeaderUpdates, OverdueHolders, KeyTaken, Replayable, SettleStep, QuantityStep;
  }

  lemma SeatInsertIff(c: Tables, tx: Tx, busy: set<Row>, now: Time, newId: Id)
    requires Agrees(c) && TxOk(c, tx) && tx.request.SeatsRequest? && tx.stage.Inserting?
    requires |tx.stage.rows| < |tx.request.seatIds|
    requires newId !in c.holds && newId !in tx.stage.rows && HoldRow(newId) !in busy
    ensures Advance(c, busy, tx, now, newId).Some?
            <==> Bookable(c, {tx.request.seatIds[|tx.stage.rows|]}, tx.stage.listedAt)
  {
    hide Advance, TxOk, View, Agrees, ActiveOn;
    InsertNeedsClearSeat(c, tx, busy, now, newId);
    var seat := tx.request.seatIds[|tx.stage.rows|];
    if Bookable(c, {seat}, tx.stage.listedAt) {
      forall h ensures !ActiveOn(View(c, tx.writes), h, seat) { SeatClear(c, tx, h); }
    } else {
      var h :| h in c.holds && c.holds[h].seatId in {seat} && Active(c.holds[h].status)
               && !(c.holds[h].status == Reserved && c.holds[h].expiresAt <= tx.stage.listedAt);
      SeatBlocked(c, tx, h);
    }
  }

  /** So a seat that was confirmed since the listing stops the insert, whatever the clock and the other locks. */
  lemma InterleavingsConfirmedSeatStopsInsert(s: Tables, events: seq<Event>, t: nat, h: Id, busy: set<Row>, now: Time,
                                              newId: Id)
    requires Inv(s) && t in Run(s, events).txs && Run(s, events).txs[t].stage.Inserting?
    requires var m := Run(s, events);
             && h in m.committed.holds && m.committed.holds[h].status == Confirmed
             && m.txs[t].request.SeatsRequest? && |m.txs[t].stage.rows| < |m.txs[t].request.seatIds|
             && m.committed.holds[h].seatId == m.txs[t].request.seatIds[|m.txs[t].stage.rows|]
    ensures var m := Run(s, events); Advance(m.committed, busy, m.txs[t], now, newId).None?
  {
    RunOk(s, events);
    SeatBlocked(Run(s, events).committed, Run(s, events).txs[t], h);
    ActiveStops(Run(s, events).committed, busy, Run(s, events).txs[t], now, newId, h);
  }

  lemma ActiveStops(c: Tables, busy: set<Row>, tx: Tx, now: Time, newId: Id, h: Id)
    requires tx.request.SeatsRequest? && tx.stage.Inserting? && |tx.stage.rows| < |tx.request.seatIds|
    requires ActiveOn(View(c, tx.writes), h, tx.request.seatIds[|tx.stage.rows|])
    ensures Advance(c, busy, tx, now, newId).None?
  {
  }

  lemma ConfirmedStays(a: Tables, b: Tables, h: Id)
    requires Evolves(a, b) && h in a.holds && a.holds[h].status == Confirmed
    ensures h in b.holds && b.holds[h] == a.holds[h]
  {
    assert HoldEvolves(a.holds[h], b.holds[h]);
  }

  lemma ConfirmedNotBookable(c: Tables, seats: set<Id>, listedAt: Time, h: Id)
    requires h in c.holds && c.holds[h].status == Confirmed && c.holds[h].seatId in seats
    ensures !Bookable(c, seats, listedAt)
  {
  }

  lemma FinishedOverConfirmed(c: Tables, tx: Tx, h: Id)
    requires Agrees(c) && TxOk(c, tx) && tx.request.SeatsRequest?
    requires h in c.holds && c.holds[h].status == Confirmed && c.holds[h].seatId in tx.request.seatIds
    ensures Finished(tx) ==> tx.stage.Answered?
  {
    hide Agrees;
    if Finished(tx) && tx.stage.Inserting? {
      SeatsLegal(c, tx);
      assert c.holds[h].seatId in Ordering.ToSet(tx.request.seatIds);
      ConfirmedNotBookable(c, SeatsOf(tx.stage.rows), tx.stage.listedAt, h);
    }
  }

  /**
   Once one of its requested seats is confirmed, in whatever state the request then is and however the run goes
   on, a seat transaction cannot come to a commit that takes seats: it can only roll back, or replay an earlier answer.
   */
  lemma InterleavingsConfirmedSeatBlocks(s: Tables, events: seq<Event>, i: nat, t: nat, h: Id)
    requires Inv(s) && i <= |events|
    requires h in Run(s, events[..i]).committed.holds && Run(s, events[..i]).committed.holds[h].status == Confirmed
    requires t in Run(s, events).txs && Run(s, events).txs[t].request.SeatsRequest?
    requires Run(s, events[..i]).committed.holds[h].seatId in Run(s, events).txs[t].request.seatIds
    ensures Finished(Run(s, events).txs[t]) ==> Run(s, events).txs[t].stage.Answered?
  {
    hide Constraints, Conserved, Agrees, Run, Evolves, TxOk, Finished;
    RunOk(s, events);
    InterleavingsEvolve(s, events, i);
    ConfirmedStays(Run(s, events[..i]).committed, Run(s, events).committed, h);
    FinishedOverConfirmed(Run(s, events).committed, Run(s, events).txs[t], h);
  }

  /** No transaction that commits after a seat was confirmed takes that seat. */
  lemma InterleavingsNeverResell(s: Tables, events: seq<Event>, i: nat, j: nat, h: Id)
    requires Inv(s) && i <= |events|
    requires h in Run(s, events[..i]).committed.holds && Run(s, events[..i]).committed.holds[h].status == Confirmed
    requires |Run(s, events[..i]).history| <= j < |Run(s, events).history| && Run(s, events).history[j].TakeSeats?
    ensures Run(s, events[..i]).committed.holds[h].seatId !in SeatsOf(Run(s, events).history[j].rows)
  {
    hide Inv, Run, Evolves, Apply, Replay, Bookable;
    var ops, done := Run(s, events).history, Run(s, events[..i]).history;
    InterleavingsSerialise(s, events[..i]);
    InterleavingsSerialise(s, events);
    HistoryGrows(s, events, i);
    assert ops[..|done|] == done;
    RunEvolves(s, ops, |done|, j);
    var before := Replay(s, ops[..j]);
    ReplayStep(s, ops, j);
    ConfirmedStays(Replay(s, done), before, h);
    if before.holds[h].seatId in SeatsOf(ops[j].rows) {
      ConfirmedNotBookable(before, SeatsOf(ops[j].rows), ops[j].listedAt, h);
    }
  }
}
