/**
 No deadlock on explicit FOR UPDATE locks. Seat requests lock seats by ascending id and then headers by
 ascending id; cancel and confirm lock one header and wait for nothing they could hold; the worker skips
 what is locked. So a transaction only ever waits for a row above every row it has locked.
 */
module Deadlock {
  import opened Schema
  import opened Ordering
  import opened Serial
  import opened Machine

  /** The row a transaction's next statement locks with FOR UPDATE, if it would wait for that row. */
  function Target(c: Tables, tx: Tx): Option<Row> {
    match tx.request
    case FinishRequest(rid, _, _) =>
      if tx.stage.Start? && rid in c.reservations then Some(HeaderRow(rid)) else None
    case SeatsRequest(eventId, seatIds, _, _, _) =>
      (match tx.stage
       case LockingSeats(next, _) =>
         if next < |seatIds| && seatIds[next] in c.seats && c.seats[seatIds[next]].eventId == eventId
         then Some(SeatRow(seatIds[next])) else None
       case LockingHolders(_, holders, next) =>
         if next < |holders| then Some(HeaderRow(holders[next])) else None
       case _ => None)
    case _ => None
  }

  /** Transaction t is stopped at a FOR UPDATE by a lock that u holds. */
  predicate WaitsFor(m: System, t: nat, u: nat) {
    && t in m.txs && u in m.txs && t != u
    && Target(m.committed, m.txs[t]).Some?
    && Target(m.committed, m.txs[t]).value in m.txs[u].rows
  }

  /** Seats before headers, and by id within each. Other rows are not locked explicitly. */
  predicate Above(x: Row, y: Row) {
    match x
    case HeaderRow(id) => y.HeaderRow? ==> y.id < id
    case SeatRow(id) => !y.HeaderRow? && (y.SeatRow? ==> y.id < id)
    case _ => false
  }

  function SeatRows(ids: seq<Id>): set<Row> {
    set i | i in ids :: SeatRow(i)
  }

  function HeaderRows(ids: seq<Id>): set<Row> {
    set i | i in ids :: HeaderRow(i)
  }

  /** What a transaction that may still wait has locked so far. */
  ghost predicate LocksOk(tx: Tx) {
    match tx.request
    case FinishRequest(_, _, _) => tx.stage.Start? ==> tx.rows == {}
    case SeatsRequest(_, seatIds, _, _, _) =>
      && Ascending(seatIds)
      && (match tx.stage
          case Start => tx.rows == {}
          case Checked => tx.rows == {}
          case LockingSeats(next, _) => next <= |seatIds| && tx.rows <= SeatRows(seatIds[..next])
          case LockingHolders(_, holders, next) =>
            Ascending(holders) && next <= |holders| && tx.rows <= SeatRows(seatIds) + HeaderRows(holders[..next])
          case _ => true)
    case _ => true
  }

  lemma AscendingAbove(ids: seq<Id>, n: nat)
    requires Ascending(ids) && n < |ids|
    ensures forall i :: i in ids[..n] ==> i < ids[n]
  {
    forall i | i in ids[..n] ensures i < ids[n] {
      var j :| 0 <= j < n && ids[..n][j] == i;
      assert ids[j] < ids[n];
    }
  }

  /** A waiting transaction holds nothing at or above the row it waits for. */
  lemma TargetAbove(c: Tables, tx: Tx, y: Row)
    requires LocksOk(tx) && Target(c, tx).Some? && y in tx.rows
    ensures Above(Target(c, tx).value, y)
  {
    if tx.request.SeatsRequest? {
      match tx.stage
      case LockingSeats(next, _) => AscendingAbove(tx.request.seatIds, next);
      case LockingHolders(_, holders, next) => AscendingAbove(holders, next);
      case _ =>
    }
  }

  /** One seat is locked, or the list of overdue holders is made, sorted. */
  lemma LockingSeatsEffect(c: Tables, busy: set<Row>, q: Request, w: Writes, st: Stage, now: Time, newId: Id,
                           p: Progress)
    requires q.SeatsRequest? && st.LockingSeats? && SeatsStep(c, busy, q, w, st, now, newId) == Some(p)
    ensures if st.next < |q.seatIds| then
              p.stage.LockingSeats? && p.stage.next == st.next + 1 && p.takes <= {SeatRow(q.seatIds[st.next])}
            else p.stage.LockingHolders? && p.stage.next == 0 && Ascending(p.stage.holders) && p.takes == {}
  {
    hide OverdueHolders, ToSet;
  }

  lemma LockingSeatsLocks(c: Tables, busy: set<Row>, tx: Tx, now: Time, newId: Id, p: Progress)
    requires LocksOk(tx) && tx.request.SeatsRequest? && tx.stage.LockingSeats?
    requires SeatsStep(c, busy, tx.request, tx.writes, tx.stage, now, newId) == Some(p)
    ensures LocksOk(Stepped(tx, p))
  {
    hide SeatsStep;
    var seatIds, next := tx.request.seatIds, tx.stage.next;
    LockingSeatsEffect(c, busy, tx.request, tx.writes, tx.stage, now, newId, p);
    if next < |seatIds| {
      assert seatIds[..next + 1] == seatIds[..next] + [seatIds[next]];
    } else {
      assert seatIds[..next] == seatIds;
    }
  }

  lemma LockingHoldersLocks(c: Tables, busy: set<Row>, tx: Tx, now: Time, newId: Id, p: Progress)
    requires LocksOk(tx) && tx.request.SeatsRequest? && tx.stage.LockingHolders?
    requires SeatsStep(c, busy, tx.request, tx.writes, tx.stage, now, newId) == Some(p)
    ensures LocksOk(Stepped(tx, p))
  {
    hide HoldUpdates, View, ToSet;
    var holders, next := tx.stage.holders, tx.stage.next;
    if next < |holders| { assert holders[..next + 1] == holders[..next] + [holders[next]]; }
  }

  /** After the last explicit lock, and before the first, there is nothing to check. */
  lemma OtherSeatsLocks(c: Tables, busy: set<Row>, tx: Tx, now: Time, newId: Id, p: Progress)
    requires LocksOk(tx) && tx.request.SeatsRequest? && !tx.stage.LockingSeats? && !tx.stage.LockingHolders?
    requires SeatsStep(c, busy, tx.request, tx.writes, tx.stage, now, newId) == Some(p)
    ensures LocksOk(Stepped(tx, p))
  {
    hide HoldUpdates, HeaderUpdates, View, ToSet, Replayable, KeyTaken, Ascending, SeatRows, HeaderRows;
    if tx.stage.Checked? { assert tx.request.seatIds[..0] == []; }
  }

  lemma StepLocks(c: Tables, busy: set<Row>, tx: Tx, now: Time, newId: Id, p: Progress)
    requires LocksOk(tx) && Advance(c, busy, tx, now, newId) == Some(p)
    ensures LocksOk(Stepped(tx, p))
  {
    hide SeatsStep, QuantityStep, SettleStep, LockHeader, LockBatch;
    if tx.stage.Settling? {
      SettlingStays(c, busy, tx.writes, tx.stage, p);
    } else {
      match tx.request
      case FinishRequest(_, _, _) => LockHeaderLeavesStart(c, busy, tx.request, tx.writes, now, p);
      case SeatsRequest(_, _, _, _, _) =>
        if tx.stage.LockingSeats? { LockingSeatsLocks(c, busy, tx, now, newId, p); }
        else if tx.stage.LockingHolders? { LockingHoldersLocks(c, busy, tx, now, newId, p); }
        else { OtherSeatsLocks(c, busy, tx, now, newId, p); }
      case _ =>
    }
  }

  lemma SettlingStays(c: Tables, busy: set<Row>, w: Writes, st: Stage, p: Progress)
    requires st.Settling? && SettleStep(c, busy, w, st) == Some(p)
    ensures p.stage.Settling?
  {
  }

  lemma LockHeaderLeavesStart(c: Tables, busy: set<Row>, q: Request, w: Writes, now: Time, p: Progress)
    requires q.FinishRequest? && LockHeader(c, busy, q, w, now) == Some(p)
    ensures !p.stage.Start?
  {
  }

  lemma {:induction false} RunLocks(s: Tables, events: seq<Event>)
    ensures forall t :: t in Run(s, events).txs ==> LocksOk(Run(s, events).txs[t])
  {
    hide Advance, View, Legal, Finished;
    if events != [] {
      var before, e := events[..|events| - 1], events[|events| - 1];
      RunLocks(s, before);
      var m := Run(s, before);
      if e.Step? && Enabled(m, e) {
        StepLocks(m.committed, Busy(m, e.t), m.txs[e.t], e.now, e.newId, StepOf(m, e).value);
      }
    }
  }

  // ---------- the theorems ----------

  ghost predicate WaitCycle(m: System, ts: seq<nat>) {
    ts != [] && forall i :: 0 <= i < |ts| ==> WaitsFor(m, ts[i], ts[if i + 1 < |ts| then i + 1 else 0])
  }

  /** The contested rows climb along a chain of waiting transactions. */
  lemma {:induction false} ChainClimbs(m: System, ts: seq<nat>, n: nat)
    requires forall t :: t in m.txs ==> LocksOk(m.txs[t])
    requires n < |ts| && forall i :: 0 <= i < n ==> WaitsFor(m, ts[i], ts[i + 1])
    requires 0 < n && ts[n] in m.txs && Target(m.committed, m.txs[ts[n]]).Some?
    ensures WaitsFor(m, ts[0], ts[1])
    ensures Above(Target(m.committed, m.txs[ts[n]]).value, Target(m.committed, m.txs[ts[0]]).value)
  {
    assert WaitsFor(m, ts[n - 1], ts[n]);
    TargetAbove(m.committed, m.txs[ts[n]], Target(m.committed, m.txs[ts[n - 1]]).value);
    if n > 1 { ChainClimbs(m, ts, n - 1); }
  }

  /** However many transactions run, however their statements interleave: no cycle of explicit lock waits. */
  lemma NoWaitCycle(s: Tables, events: seq<Event>, ts: seq<nat>)
    ensures !WaitCycle(Run(s, events), ts)
  {
    var m := Run(s, events);
    RunLocks(s, events);
    if WaitCycle(m, ts) {
      var last := |ts| - 1;
      assert WaitsFor(m, ts[last], ts[0]);
      assert WaitsFor(m, ts[0], ts[if 1 < |ts| then 1 else 0]);
      forall i | 0 <= i < last ensures WaitsFor(m, ts[i], ts[i + 1]) { }
      TargetAbove(m.committed, m.txs[ts[0]], Target(m.committed, m.txs[ts[last]]).value);
      if last > 0 { ChainClimbs(m, ts, last); }
      assert false;
    }
  }

  /** The next statement is one of the explicit FOR UPDATE locks that wait. */
  predicate AtExplicitLock(tx: Tx) {
    match tx.request
    case FinishRequest(_, _, _) => tx.stage.Start?
    case SeatsRequest(_, seatIds, _, _, _) =>
      (tx.stage.LockingSeats? && tx.stage.next < |seatIds|)
      || (tx.stage.LockingHolders? && tx.stage.next < |tx.stage.holders|)
    case _ => false
  }

  /** WaitsFor is what stops the machine: a statement that could run with no locks around is stopped by a holder. */
  lemma StoppedMeansWaiting(s: Tables, events: seq<Event>, t: nat, now: Time, newId: Id)
    requires var m := Run(s, events); t in m.txs && AtExplicitLock(m.txs[t])
    requires var m := Run(s, events); Advance(m.committed, {}, m.txs[t], now, newId).Some?
    ensures var m := Run(s, events);
            Advance(m.committed, Busy(m, t), m.txs[t], now, newId).None? <==> exists u :: WaitsFor(m, t, u)
  {
    hide View, HoldUpdates, HeaderUpdates, OverdueHolders, SettleStep, Legal, Run;
    var m := Run(s, events);
    var x := Target(m.committed, m.txs[t]);
    assert Advance(m.committed, Busy(m, t), m.txs[t], now, newId).None? <==> x.Some? && x.value in Busy(m, t);
    if x.Some? && x.value in Busy(m, t) {
      var u :| u in m.txs && u != t && x.value in m.txs[u].rows;
      assert WaitsFor(m, t, u);
    }
    if u :| WaitsFor(m, t, u) { assert x.value in Busy(m, t); }
  }
}
