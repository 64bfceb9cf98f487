/**
 The rows a statement sees in the middle of a run. The CHECK constraints, the int32 range of the counters and
 the unique index on active holds are met not only by the committed rows but by every transaction's own view,
 between any two of its statements.
 */
module Uncommitted {
  import opened Schema
  import opened Ordering
  import opened Sums
  import opened Invariant
  import opened Settlement
  import opened Machine
  import opened TxInvariant
  import opened TxReserves
  import opened TxCommit
  import opened Serializable

  // ---------- settlements ----------

  lemma MovedWereReserved(c: Tables, queue: seq<Id>, done: nat, sub: Sub)
    requires SubOk(c, queue, done, sub)
    ensures MovedSet(c.items, MarkedSet(queue, done, sub), sub) <= WithStatus(c.items, Reserved)
  {
    if sub.Moving? {
      forall i | i in sub.list[..sub.next] ensures i in WithStatus(c.items, Reserved) { assert i in sub.list; }
    }
  }

  /** What has been moved so far is covered by the committed counter, so the uncommitted one meets its CHECKs. */
  lemma MovedCounterOk(c: Tables, moved: set<Id>, target: Status, k: Id)
    requires ChecksOk(c) && Conserved(c) && k in c.ticketTypes && moved <= WithStatus(c.items, Reserved)
    ensures CounterOk(Shift(c.ticketTypes[k], Qty(c.items, moved, k), target))
  {
    QtyMonotone(c.items, moved, WithStatus(c.items, Reserved), k);
  }

  lemma SettlingCounters(c: Tables, mine: set<Row>, q: Request, w: Writes, st: Stage)
    requires ChecksOk(c) && Conserved(c) && st.Settling? && SettlingOk(c, mine, q, w, st)
    ensures forall k :: k in w.ticketTypes ==> k in c.ticketTypes && CounterOk(w.ticketTypes[k])
  {
    hide QueueOk, SubOk, MovedSet, MarkedSet, HeaderUpdates, ItemUpdates, HoldUpdates, Qty, WithStatus, ChecksOk;
    hide Conserved, CounterOk;
    assert st.done <= |st.queue| by { TxStable.SubInRange(c, st.queue, st.done, st.sub); }
    var moved := MovedSet(c.items, MarkedSet(st.queue, st.done, st.sub), st.sub);
    MovedWereReserved(c, st.queue, st.done, st.sub);
    forall k | k in w.ticketTypes ensures k in c.ticketTypes && CounterOk(w.ticketTypes[k]) {
      MovedCounterOk(c, moved, st.target, k);
    }
  }

  lemma SettlingItems(c: Tables, mine: set<Row>, q: Request, w: Writes, st: Stage)
    requires ChecksOk(c) && st.Settling? && SettlingOk(c, mine, q, w, st)
    ensures forall i :: i in w.items ==> 0 < w.items[i].quantity <= INT32_MAX
  {
    hide QueueOk, CountersOk, MarkedSet;
  }

  lemma MarkedHoldsFewer(c: Tables, w: Writes, rs: set<Id>, target: Status)
    requires ActiveUnique(c) && w.holds == HoldUpdates(c.holds, rs, target)
    ensures ActiveUnique(View(c, w))
  {
    FewerActive(c, View(c, w));
  }

  lemma SettlingView(c: Tables, mine: set<Row>, q: Request, w: Writes, st: Stage)
    requires Inv(c) && st.Settling? && SettlingOk(c, mine, q, w, st)
    ensures ChecksOk(View(c, w)) && ActiveUnique(View(c, w))
  {
    hide QueueOk, CountersOk, HeaderUpdates, ItemUpdates, HoldUpdates, MarkedSet, Agrees, Conserved, ReferencesOk;
    hide KeysUnique, ActiveUnique;
    SettlingCounters(c, mine, q, w, st);
    SettlingItems(c, mine, q, w, st);
    assert st.done <= |st.queue| by { TxStable.SubInRange(c, st.queue, st.done, st.sub); }
    MarkedHoldsFewer(c, w, MarkedSet(st.queue, st.done, st.sub), st.target);
  }

  // ---------- new reservations ----------

  lemma QuantityView(c: Tables, mine: set<Row>, q: Request, w: Writes, st: Stage)
    requires Inv(c) && q.QuantityRequest? && WellFormed(q) && QuantityOk(c, mine, q, w, st)
    ensures ChecksOk(View(c, w)) && ActiveUnique(View(c, w))
  {
    hide HeaderFresh, Agrees, Conserved, ReferencesOk, KeysUnique;
    assert w.holds == map[];
    assert c.holds + w.holds == c.holds;
    FewerActive(c, View(c, w));
  }

  /** A committed hold that is active in the view is active among the committed rows and not swept. */
  lemma StillActive(c: Tables, w: Writes, holders: seq<Id>, rows: map<Id, Hold>, h: Id, seat: Id)
    requires SweptWrites(c, w, holders, rows) && h !in rows && ActiveOn(View(c, w), h, seat)
    ensures ActiveOn(c, h, seat) && !(c.holds[h].reservationId in holders && c.holds[h].status == Reserved)
  {
    if h in c.holds && c.holds[h].reservationId in holders { assert c.holds[h].reservationId in ToSet(holders); }
  }

  /** RowsOk leaves no committed active hold on the seat of a new row but those of the listed holders. */
  lemma SeatOfNewRow(c: Tables, mine: set<Row>, q: Request, holders: seq<Id>, rid: Id, rows: map<Id, Hold>, g: Id,
                     h: Id)
    requires q.SeatsRequest? && RowsOk(c, mine, q, holders, rid, rows) && g in rows
    requires ActiveOn(c, h, rows[g].seatId)
    ensures c.holds[h].reservationId in holders && c.holds[h].status == Reserved
  {
    assert rows[g].seatId in q.seatIds[..|rows|];
  }

  lemma NewRowsDiffer(c: Tables, mine: set<Row>, q: Request, holders: seq<Id>, rid: Id, rows: map<Id, Hold>, g: Id,
                      h: Id)
    requires q.SeatsRequest? && RowsOk(c, mine, q, holders, rid, rows)
    requires g in rows && h in rows && rows[g].seatId == rows[h].seatId
    ensures g == h
  {
  }

  /** The seat of a row just inserted has no other active hold. */
  lemma NewRowAlone(c: Tables, mine: set<Row>, q: Request, w: Writes, holders: seq<Id>, rid: Id, rows: map<Id, Hold>,
                    g: Id, h: Id)
    requires q.SeatsRequest? && RowsOk(c, mine, q, holders, rid, rows) && SweptWrites(c, w, holders, rows)
    requires g in rows && ActiveOn(View(c, w), h, rows[g].seatId)
    ensures g == h
  {
    hide RowsOk;
    if h in rows {
      NewRowsDiffer(c, mine, q, holders, rid, rows, g, h);
    } else {
      StillActive(c, w, holders, rows, h, rows[g].seatId);
      SeatOfNewRow(c, mine, q, holders, rid, rows, g, h);
    }
  }

  lemma SweptHoldsUnique(c: Tables, mine: set<Row>, q: Request, w: Writes, holders: seq<Id>, rid: Id,
                         rows: map<Id, Hold>)
    requires ActiveUnique(c) && q.SeatsRequest? && RowsOk(c, mine, q, holders, rid, rows)
             && SweptWrites(c, w, holders, rows)
    ensures ActiveUnique(View(c, w))
  {
    hide RowsOk, HoldUpdates;
    var v := View(c, w);
    forall g, h, seat | ActiveOn(v, g, seat) && ActiveOn(v, h, seat) ensures g == h {
      if g in rows {
        NewRowAlone(c, mine, q, w, holders, rid, rows, g, h);
      } else if h in rows {
        NewRowAlone(c, mine, q, w, holders, rid, rows, h, g);
      } else {
        StillActive(c, w, holders, rows, g, seat);
        StillActive(c, w, holders, rows, h, seat);
      }
    }
  }

  lemma NoStockWritten(c: Tables, w: Writes)
    requires ChecksOk(c) && w.ticketTypes == map[] && w.items == map[]
    ensures ChecksOk(View(c, w))
  {
    assert View(c, w).ticketTypes == c.ticketTypes && View(c, w).items == c.items;
  }

  lemma SweptView(c: Tables, mine: set<Row>, q: Request, w: Writes, holders: seq<Id>, rid: Id, rows: map<Id, Hold>)
    requires Inv(c) && q.SeatsRequest? && RowsOk(c, mine, q, holders, rid, rows) && SweptWrites(c, w, holders, rows)
    ensures ChecksOk(View(c, w)) && ActiveUnique(View(c, w))
  {
    hide RowsOk, View, HoldUpdates, ChecksOk, ActiveUnique, Agrees, Conserved;
    SweptHoldsUnique(c, mine, q, w, holders, rid, rows);
    NoStockWritten(c, w);
  }

  lemma SeatsView(c: Tables, mine: set<Row>, q: Request, w: Writes, st: Stage)
    requires Inv(c) && q.SeatsRequest? && SeatsOk(c, mine, q, w, st)
    ensures ChecksOk(View(c, w)) && ActiveUnique(View(c, w))
  {
    hide HoldersOk, HeaderUpdates, HeaderFresh, RowsOk, SweptWrites, View, Agrees, Conserved, ReferencesOk, KeysUnique;
    hide ActiveUnique, ChecksOk;
    if st.HoldersExpired? || st.HeadersExpired? {
      NoRowsYet(c, mine, q, st.holders, 0);
      SweptView(c, mine, q, w, st.holders, 0, map[]);
    } else if st.Inserting? {
      SweptView(c, mine, q, w, st.holders, st.rid, st.rows);
    } else {
      NothingCommits(c);
    }
  }

  // ---------- any transaction, any run ----------

  lemma ViewOk(c: Tables, tx: Tx)
    requires Inv(c) && TxOk(c, tx)
    ensures ChecksOk(View(c, tx.writes)) && ActiveUnique(View(c, tx.writes))
  {
    hide Agrees, Conserved, ReferencesOk, KeysUnique, ActiveUnique, ChecksOk, SettlingOk, QuantityOk, SeatsOk, View;
    if tx.stage.Settling? {
      OnlySettlersSettle(c, tx);
      SettlingView(c, tx.rows, tx.request, tx.writes, tx.stage);
    } else {
      match tx.request
      case FinishRequest(_, _, _) => NothingCommits(c);
      case BatchRequest(_) => NothingCommits(c);
      case QuantityRequest(_, _, _, _, _, _) => QuantityView(c, tx.rows, tx.request, tx.writes, tx.stage);
      case SeatsRequest(_, _, _, _, _) => SeatsView(c, tx.rows, tx.request, tx.writes, tx.stage);
    }
  }

  /** At every moment of every run, what each open transaction sees meets the CHECKs and the active-hold index. */
  lemma InterleavingsMeetChecks(s: Tables, events: seq<Event>, t: nat)
    requires Inv(s) && t in Run(s, events).txs
    ensures var m := Run(s, events);
            ChecksOk(View(m.committed, m.txs[t].writes)) && ActiveUnique(View(m.committed, m.txs[t].writes))
  {
    RunOk(s, events);
    ViewOk(Run(s, events).committed, Run(s, events).txs[t]);
  }
}
