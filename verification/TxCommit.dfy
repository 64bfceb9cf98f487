/** At its commit, what a transaction has written is one legal serial operation on the committed database. */
module TxCommit {
  import opened Schema
  import opened Ordering
  import opened Invariant
  import opened Settlement
  import opened Serial
  import opened Machine
  import opened TxInvariant
  import opened TxSettles

  // ---------- cancel, confirm and the worker ----------

  lemma UpdatesMark(c: Tables, rs: set<Id>, target: Status)
    ensures c.items + ItemUpdates(c.items, rs, target) == MarkedItems(c.items, rs, target)
    ensures c.holds + HoldUpdates(c.holds, rs, target) == MarkedHolds(c.holds, rs, target)
    ensures c.reservations + HeaderUpdates(c.reservations, rs, target) == MarkedHeaders(c.reservations, rs, target)
  {
  }

  lemma CountersShift(c: Tables, mine: set<Row>, types: map<Id, TicketType>, moved: set<Id>, target: Status)
    requires CountersOk(c, mine, types, moved, target)
    ensures c.ticketTypes + types == ShiftedTypes(c, moved, target)
  {
    var a, b := c.ticketTypes + types, ShiftedTypes(c, moved, target);
    forall k | k in c.ticketTypes ensures a[k] == b[k] {
      SeenCounter(c, mine, types, moved, target, k);
    }
  }

  lemma SettlingCommits(c: Tables, mine: set<Row>, q: Request, w: Writes, st: Stage)
    requires st.Settling? && SettlingOk(c, mine, q, w, st) && st.done == |st.queue|
    ensures View(c, w) == Settle(c, ToSet(st.queue), st.target)
  {
    hide QueueOk, CountersOk, ItemUpdates, HoldUpdates, HeaderUpdates, MarkedItems, MarkedHolds, MarkedHeaders;
    hide ShiftedTypes;
    var rs := ToSet(st.queue);
    assert st.queue[..st.done] == st.queue;
    assert MarkedSet(st.queue, st.done, st.sub) == rs;
    assert MovedSet(c.items, rs, st.sub) == Owned(c.items, rs);
    UpdatesMark(c, rs, st.target);
    CountersShift(c, mine, w.ticketTypes, Owned(c.items, rs), st.target);
  }

  lemma QueueLegal(c: Tables, mine: set<Row>, q: Request, target: Status, now: Time, queue: seq<Id>)
    requires QueueOk(c, mine, q, target, now, queue) && WellFormed(q)
    ensures q.FinishRequest? ==>
              && Legal(c, Finish(q.rid, q.visitor, q.want, now)) && queue == [q.rid]
              && target == Outcome(c.reservations[q.rid], q.want, now)
    ensures q.BatchRequest? ==> Legal(c, ExpireBatch(ToSet(queue), now)) && target == Expired
  {
    forall r | r in queue ensures Queued(c, mine, q, r, target, now) { }
    if q.FinishRequest? { assert q.rid in queue; }
  }

  lemma FinishCommits(c: Tables, tx: Tx)
    requires TxOk(c, tx) && tx.request.FinishRequest? && tx.stage.Settling? && Finished(tx)
    ensures Legal(c, OpOf(tx)) && View(c, tx.writes) == Apply(c, OpOf(tx))
  {
    hide Settle, QueueOk, View;
    var st := tx.stage;
    SettlingCommits(c, tx.rows, tx.request, tx.writes, st);
    QueueLegal(c, tx.rows, tx.request, st.target, st.now, st.queue);
    assert ToSet(st.queue) == {tx.request.rid};
  }

  lemma BatchCommits(c: Tables, tx: Tx)
    requires TxOk(c, tx) && tx.request.BatchRequest? && tx.stage.Settling? && Finished(tx)
    ensures Legal(c, OpOf(tx)) && View(c, tx.writes) == Apply(c, OpOf(tx))
  {
    hide Settle, QueueOk, View;
    var st := tx.stage;
    SettlingCommits(c, tx.rows, tx.request, tx.writes, st);
    QueueLegal(c, tx.rows, tx.request, st.target, st.now, st.queue);
  }

  // ---------- new reservations ----------

  lemma QuantityCommits(c: Tables, tx: Tx)
    requires TxOk(c, tx) && tx.request.QuantityRequest? && tx.stage.QuantityDone?
    ensures Legal(c, OpOf(tx)) && View(c, tx.writes) == Apply(c, OpOf(tx))
  {
    hide KeyTaken, View;
    var w := tx.writes;
    var k, rid, iid := tx.request.typeId, tx.stage.rid, tx.stage.iid;
    OneRowEachView(c, w, k, w.ticketTypes[k], rid, w.headers[rid], iid, w.items[iid]);
  }

  lemma OneRowEachView(c: Tables, w: Writes, k: Id, t: TicketType, rid: Id, header: Reservation, iid: Id, item: Item)
    requires w == Writes(map[k := t], map[rid := header], map[iid := item], map[])
    ensures View(c, w)
         == c.(ticketTypes := c.ticketTypes[k := t], reservations := c.reservations[rid := header],
               items := c.items[iid := item])
  {
    assert c.ticketTypes + w.ticketTypes == c.ticketTypes[k := t];
    assert c.reservations + w.headers == c.reservations[rid := header];
    assert c.items + w.items == c.items[iid := item];
    assert c.holds + w.holds == c.holds;
  }

  /** The stale list and the list a serial run would make differ only in reservations that are no longer reserved. */
  lemma StaleListHarmless(c: Tables, mine: set<Row>, q: Request, listedAt: Time, holders: seq<Id>, r: Id)
    requires Agrees(c) && q.SeatsRequest? && HoldersOk(c, mine, q, listedAt, holders, |holders|)
    requires r in c.reservations && c.reservations[r].status == Reserved
    ensures r in holders <==> r in OverdueHolders(c, ToSet(q.seatIds), listedAt)
  {
    if r in holders {
      assert Listed(c, r, q.seatIds, listedAt);
      var h :| h in c.holds && c.holds[h].reservationId == r && c.holds[h].seatId in q.seatIds;
      assert HoldAgrees(c, c.holds[h]);
      assert c.holds[h].seatId in ToSet(q.seatIds);
    }
    if r in OverdueHolders(c, ToSet(q.seatIds), listedAt) {
      var h :| h in c.holds && c.holds[h].seatId in ToSet(q.seatIds) && c.holds[h].status == Reserved
               && c.holds[h].expiresAt <= listedAt && c.holds[h].reservationId == r;
      assert c.holds[h].reservationId in holders;
    }
  }

  /** What a set-based sweep writes depends only on the reserved reservations in its list. */
  lemma SweepSame(c: Tables, a: set<Id>, b: set<Id>)
    requires forall h :: h in c.holds && c.holds[h].status == Reserved ==>
               (c.holds[h].reservationId in a <==> c.holds[h].reservationId in b)
    requires forall r :: r in c.reservations && c.reservations[r].status == Reserved ==> (r in a <==> r in b)
    ensures c.holds + HoldUpdates(c.holds, a, Expired) == MarkedHolds(c.holds, b, Expired)
    ensures c.reservations + HeaderUpdates(c.reservations, a, Expired) == MarkedHeaders(c.reservations, b, Expired)
  {
  }

  lemma StaleSweepSettles(c: Tables, mine: set<Row>, q: Request, listedAt: Time, holders: seq<Id>)
    requires Agrees(c) && q.SeatsRequest? && HoldersOk(c, mine, q, listedAt, holders, |holders|)
    ensures Settle(c, OverdueHolders(c, ToSet(q.seatIds), listedAt), Expired)
         == c.(holds := c.holds + HoldUpdates(c.holds, ToSet(holders), Expired),
               reservations := c.reservations + HeaderUpdates(c.reservations, ToSet(holders), Expired))
  {
    hide HoldersOk;
    var rs := OverdueHolders(c, ToSet(q.seatIds), listedAt);
    forall r | r in c.reservations && c.reservations[r].status == Reserved ensures r in ToSet(holders) <==> r in rs {
      StaleListHarmless(c, mine, q, listedAt, holders, r);
    }
    forall h | h in c.holds && c.holds[h].status == Reserved
      ensures c.holds[h].reservationId in ToSet(holders) <==> c.holds[h].reservationId in rs
    {
      assert HoldAgrees(c, c.holds[h]);
    }
    SweepSame(c, ToSet(holders), rs);
    OverdueHoldersAreSeats(c, ToSet(q.seatIds), listedAt);
    SweepSettles(c, rs);
  }

  lemma RowsCoverSeats(c: Tables, mine: set<Row>, q: Request, holders: seq<Id>, rid: Id, rows: map<Id, Hold>)
    requires q.SeatsRequest? && RowsOk(c, mine, q, holders, rid, rows) && |rows| == |q.seatIds|
    ensures SeatsOf(rows) == ToSet(q.seatIds)
  {
    assert q.seatIds[..|rows|] == q.seatIds;
    forall seat ensures seat in SeatsOf(rows) <==> seat in ToSet(q.seatIds) {
      if seat in q.seatIds {
        var j :| 0 <= j < |q.seatIds| && q.seatIds[j] == seat;
        assert q.seatIds[j] in SeatsOf(rows);
      }
      if seat in SeatsOf(rows) {
        var h :| h in rows && rows[h].seatId == seat;
        assert rows[h].seatId in q.seatIds[..|rows|];
      }
    }
  }

  lemma SeatsRowsFit(c: Tables, mine: set<Row>, q: Request, holders: seq<Id>, rid: Id, rows: map<Id, Hold>)
    requires WellFormed(q) && q.SeatsRequest? && SeatsLocked(c, mine, q, |q.seatIds|)
    requires RowsOk(c, mine, q, holders, rid, rows) && |rows| == |q.seatIds|
    ensures RowsFit(c, rid, rows, q.eventId, q.expiresAt)
  {
    assert q.seatIds[0] in SeatsOf(rows);
    forall h | h in rows ensures rows[h].seatId in c.seats && c.seats[rows[h].seatId].eventId == q.eventId {
      var j :| 0 <= j < |q.seatIds| && q.seatIds[..|rows|][j] == rows[h].seatId;
      assert SeatLocked(c, mine, q, q.seatIds[j]);
    }
  }

  lemma SeatsBookable(c: Tables, mine: set<Row>, q: Request, listedAt: Time, holders: seq<Id>, rid: Id,
                      rows: map<Id, Hold>)
    requires Agrees(c) && q.SeatsRequest? && HoldersOk(c, mine, q, listedAt, holders, |holders|)
    requires RowsOk(c, mine, q, holders, rid, rows) && |rows| == |q.seatIds|
    ensures Bookable(c, ToSet(q.seatIds), listedAt)
  {
    assert q.seatIds[..|rows|] == q.seatIds;
    forall h | h in c.holds && c.holds[h].seatId in ToSet(q.seatIds) && Active(c.holds[h].status)
      ensures c.holds[h].status == Reserved && c.holds[h].expiresAt <= listedAt
    {
      assert c.holds[h].seatId in q.seatIds[..|rows|];
      assert Listed(c, c.holds[h].reservationId, q.seatIds, listedAt);
      assert HoldAgrees(c, c.holds[h]);
    }
  }

  lemma SeatsLegal(c: Tables, tx: Tx)
    requires Agrees(c) && TxOk(c, tx) && tx.request.SeatsRequest? && tx.stage.Inserting? && Finished(tx)
    ensures Legal(c, OpOf(tx)) && SeatsOf(tx.stage.rows) == ToSet(tx.request.seatIds)
  {
    hide HoldersOk, RowsOk, HoldUpdates, HeaderUpdates, OverdueHolders, Bookable, RowsFit, SeatsOf, Agrees, KeyTaken;
    var q, st := tx.request, tx.stage;
    SeatsLockedByHolders(c, tx.rows, q, st.listedAt, st.holders);
    SeatsRowsFit(c, tx.rows, q, st.holders, st.rid, st.rows);
    RowsCoverSeats(c, tx.rows, q, st.holders, st.rid, st.rows);
    SeatsBookable(c, tx.rows, q, st.listedAt, st.holders, st.rid, st.rows);
  }

  lemma SweptView(c: Tables, w: Writes, headers: map<Id, Reservation>, swept: map<Id, Hold>, rid: Id,
                  header: Reservation, rows: map<Id, Hold>)
    requires w == Writes(map[], headers[rid := header], map[], swept + rows)
    ensures View(c, w)
            == c.(reservations := (c.reservations + headers)[rid := header], holds := (c.holds + swept) + rows)
  {
    assert c.holds + w.holds == (c.holds + swept) + rows;
    assert c.reservations + w.headers == (c.reservations + headers)[rid := header];
    assert c.ticketTypes + w.ticketTypes == c.ticketTypes;
    assert c.items + w.items == c.items;
  }

  lemma SeatsCommits(c: Tables, tx: Tx)
    requires Agrees(c) && TxOk(c, tx) && tx.request.SeatsRequest? && tx.stage.Inserting? && Finished(tx)
    ensures Legal(c, OpOf(tx)) && View(c, tx.writes) == Apply(c, OpOf(tx))
  {
    hide HoldersOk, RowsOk, HoldUpdates, HeaderUpdates, HeaderFresh, Settle, OverdueHolders, Legal, SeatsOf, Agrees;
    hide View;
    var q, st := tx.request, tx.stage;
    SeatsLegal(c, tx);
    StaleSweepSettles(c, tx.rows, q, st.listedAt, st.holders);
    SweptView(c, tx.writes, HeaderUpdates(c.reservations, ToSet(st.holders), Expired),
      HoldUpdates(c.holds, ToSet(st.holders), Expired), st.rid,
      NewHeader(q.eventId, q.visitor, Seats, q.key, q.expiresAt), st.rows);
  }

  lemma SeatsLockedByHolders(c: Tables, mine: set<Row>, q: Request, listedAt: Time, holders: seq<Id>)
    requires q.SeatsRequest? && HoldersOk(c, mine, q, listedAt, holders, |holders|)
    ensures SeatsLocked(c, mine, q, |q.seatIds|)
  {
  }

  // ---------- any transaction ----------

  lemma NothingCommits(c: Tables)
    ensures View(c, NoWrites()) == c
  {
    assert c.ticketTypes + map[] == c.ticketTypes;
    assert c.reservations + map[] == c.reservations;
    assert c.items + map[] == c.items;
    assert c.holds + map[] == c.holds;
  }

  lemma TxCommits(c: Tables, tx: Tx)
    requires Agrees(c) && TxOk(c, tx) && Finished(tx)
    ensures Legal(c, OpOf(tx)) && View(c, tx.writes) == Apply(c, OpOf(tx))
  {
    hide SettlingOk, View, Legal, Apply, Agrees;
    match tx.stage
    case Settling(_, _, _, _, _) =>
      if tx.request.FinishRequest? { FinishCommits(c, tx); } else { BatchCommits(c, tx); }
    case QuantityDone(_, _) => QuantityCommits(c, tx);
    case Inserting(_, _, _, _) => SeatsCommits(c, tx);
    case Answered => AnsweredCommits(c, tx);
    case _ =>
  }

  lemma AnsweredCommits(c: Tables, tx: Tx)
    requires TxOk(c, tx) && tx.stage.Answered?
    ensures Legal(c, OpOf(tx)) && View(c, tx.writes) == Apply(c, OpOf(tx))
  {
    NothingCommits(c);
  }
}
