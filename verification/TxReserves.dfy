/** Every statement of a new reservation keeps QuantityOk or SeatsOk, and so every statement keeps TxOk. */
module TxReserves {
  import opened Schema
  import opened Ordering
  import opened Invariant
  import opened Serial
  import opened Machine
  import opened TxInvariant
  import opened TxSettles

  lemma QuantityStepOk(c: Tables, mine: set<Row>, busy: set<Row>, q: Request, w: Writes, st: Stage, newId: Id,
                       p: Progress)
    requires q.QuantityRequest? && QuantityOk(c, mine, q, w, st)
    requires QuantityStep(c, busy, q, w, st, newId) == Some(p)
    ensures QuantityOk(c, mine + p.takes, q, p.writes, p.stage)
  {
  }

  /** The unlocked listing, at the moment it is made. */
  lemma ListingOk(c: Tables, mine: set<Row>, q: Request, now: Time)
    requires Agrees(c) && q.SeatsRequest? && SeatsLocked(c, mine, q, |q.seatIds|)
    ensures HoldersOk(c, mine, q, now, ById(OverdueHolders(c, ToSet(q.seatIds), now)), 0)
  {
    var overdue := OverdueHolders(c, ToSet(q.seatIds), now);
    var holders := ById(overdue);
    forall r | r in holders ensures Listed(c, r, q.seatIds, now) {
      assert r in overdue;
      var h :| h in c.holds && c.holds[h].seatId in ToSet(q.seatIds) && c.holds[h].expiresAt <= now
        && c.holds[h].reservationId == r;
      assert HoldAgrees(c, c.holds[h]);
    }
    forall h | h in c.holds && c.holds[h].seatId in q.seatIds && c.holds[h].status == Reserved
      && c.holds[h].expiresAt <= now
      ensures c.holds[h].reservationId in holders
    {
      assert c.holds[h].seatId in ToSet(q.seatIds);
      assert c.holds[h].reservationId in overdue;
    }
  }

  lemma HoldersGrow(c: Tables, mine: set<Row>, more: set<Row>, q: Request, listedAt: Time, holders: seq<Id>, n: nat)
    requires q.SeatsRequest? && HoldersOk(c, mine, q, listedAt, holders, n) && mine <= more
    ensures HoldersOk(c, more, q, listedAt, holders, n)
  {
    forall j | 0 <= j < |q.seatIds| ensures SeatLocked(c, more, q, q.seatIds[j]) {
      assert SeatLocked(c, mine, q, q.seatIds[j]);
    }
  }

  lemma LockSeatOk(c: Tables, mine: set<Row>, busy: set<Row>, q: Request, w: Writes, st: Stage, now: Time, newId: Id,
                   p: Progress)
    requires q.SeatsRequest? && SeatsOk(c, mine, q, w, st) && st.LockingSeats? && st.next < |q.seatIds|
    requires SeatsStep(c, busy, q, w, st, now, newId) == Some(p)
    ensures SeatsOk(c, mine + p.takes, q, p.writes, p.stage)
  {
    if !p.stage.missing {
      forall j | 0 <= j < st.next + 1 ensures SeatLocked(c, mine + p.takes, q, q.seatIds[j]) {
        assert j < st.next ==> SeatLocked(c, mine, q, q.seatIds[j]);
      }
    }
  }

  lemma LockHolderOk(c: Tables, mine: set<Row>, busy: set<Row>, q: Request, w: Writes, st: Stage, now: Time, newId: Id,
                     p: Progress)
    requires q.SeatsRequest? && SeatsOk(c, mine, q, w, st) && st.LockingHolders? && st.next < |st.holders|
    requires SeatsStep(c, busy, q, w, st, now, newId) == Some(p)
    ensures SeatsOk(c, mine + p.takes, q, p.writes, p.stage)
  {
    hide SeatsLocked, Listed, Covers;
    HoldersGrow(c, mine, mine + p.takes, q, st.listedAt, st.holders, st.next);
  }

  lemma SweepHoldsOk(c: Tables, mine: set<Row>, busy: set<Row>, q: Request, w: Writes, st: Stage, now: Time, newId: Id,
                     p: Progress)
    requires q.SeatsRequest? && SeatsOk(c, mine, q, w, st) && st.LockingHolders? && st.next == |st.holders|
    requires SeatsStep(c, busy, q, w, st, now, newId) == Some(p)
    ensures SeatsOk(c, mine, q, p.writes, p.stage)
  {
    hide HoldersOk, HoldUpdates;
    assert View(c, w).holds == c.holds;
    var swept := HoldUpdates(c.holds, ToSet(st.holders), Expired);
    assert w.holds + swept == swept + map[];
  }

  lemma SweepHeadersOk(c: Tables, mine: set<Row>, busy: set<Row>, q: Request, w: Writes, st: Stage, now: Time,
                       newId: Id, p: Progress)
    requires q.SeatsRequest? && SeatsOk(c, mine, q, w, st) && st.HoldersExpired?
    requires SeatsStep(c, busy, q, w, st, now, newId) == Some(p)
    ensures SeatsOk(c, mine, q, p.writes, p.stage)
  {
    hide HoldersOk, HoldUpdates, HeaderUpdates;
    assert View(c, w).reservations == c.reservations;
    var swept := HeaderUpdates(c.reservations, ToSet(st.holders), Expired);
    assert w.headers + swept == swept;
  }

  lemma InsertSeatsHeaderOk(c: Tables, mine: set<Row>, busy: set<Row>, q: Request, w: Writes, st: Stage, now: Time,
                            newId: Id, p: Progress)
    requires q.SeatsRequest? && SeatsOk(c, mine, q, w, st) && st.HeadersExpired?
    requires SeatsStep(c, busy, q, w, st, now, newId) == Some(p)
    ensures SeatsOk(c, mine + p.takes, q, p.writes, p.stage)
  {
    hide HoldersOk, HoldUpdates, HeaderUpdates, KeyTaken, SeatsStep, RowsOk;
    InsertHeaderEffect(c, busy, q, w, st, now, newId, p);
    HoldersGrow(c, mine, mine + p.takes, q, st.listedAt, st.holders, |st.holders|);
    NoRowsYet(c, mine + p.takes, q, st.holders, newId);
  }

  /** What the header insert does when it succeeds. */
  lemma InsertHeaderEffect(c: Tables, busy: set<Row>, q: Request, w: Writes, st: Stage, now: Time, newId: Id,
                           p: Progress)
    requires q.SeatsRequest? && st.HeadersExpired? && SeatsStep(c, busy, q, w, st, now, newId) == Some(p)
    ensures newId !in c.reservations && !KeyTaken(c, q.visitor.sessionId, q.key)
    ensures var header := NewHeader(q.eventId, q.visitor, Seats, q.key, q.expiresAt);
            p == Progress(Inserting(st.listedAt, st.holders, newId, map[]), w.(headers := w.headers[newId := header]),
                          {HeaderRow(newId), KeySlot(q.visitor.sessionId, q.key)})
  {
    hide HoldUpdates, HeaderUpdates, View, OverdueHolders, Replayable;
  }

  lemma NoRowsYet(c: Tables, mine: set<Row>, q: Request, holders: seq<Id>, rid: Id)
    requires q.SeatsRequest?
    ensures RowsOk(c, mine, q, holders, rid, map[])
  {
    assert q.seatIds[..0] == [];
  }

  /** An insert that gets past uq_active_reservation_seat finds the seat free but for the holders just swept. */
  lemma SeatFree(c: Tables, w: Writes, holders: seq<Id>, rows: map<Id, Hold>, seat: Id)
    requires SweptWrites(c, w, holders, rows)
    requires !exists h :: ActiveOn(View(c, w), h, seat)
    ensures forall h :: h in c.holds && c.holds[h].seatId == seat && Active(c.holds[h].status) && h !in rows ==>
              c.holds[h].reservationId in holders && c.holds[h].status == Reserved
    ensures forall h :: h in rows && Active(rows[h].status) ==> rows[h].seatId != seat
  {
    forall h | h in c.holds && c.holds[h].seatId == seat && Active(c.holds[h].status) && h !in rows
      ensures c.holds[h].reservationId in holders && c.holds[h].status == Reserved
    {
      assert !ActiveOn(View(c, w), h, seat);
      assert h in w.holds;
    }
    forall h | h in rows && Active(rows[h].status) ensures rows[h].seatId != seat {
      assert !ActiveOn(View(c, w), h, seat);
    }
  }

  lemma InsertHoldRowsOk(c: Tables, mine: set<Row>, q: Request, holders: seq<Id>, rid: Id, rows: map<Id, Hold>,
                         newId: Id)
    requires q.SeatsRequest? && RowsOk(c, mine, q, holders, rid, rows)
    requires |rows| < |q.seatIds| && newId !in c.holds && newId !in rows
    requires var seat := q.seatIds[|rows|];
             && (forall h :: h in c.holds && c.holds[h].seatId == seat && Active(c.holds[h].status) ==>
                   c.holds[h].reservationId in holders && c.holds[h].status == Reserved)
             && (forall h :: h in rows ==> rows[h].seatId != seat)
    ensures RowsOk(c, mine + {HoldRow(newId)}, q, holders, rid,
                   rows[newId := Hold(rid, q.seatIds[|rows|], Reserved, q.expiresAt)])
  {
    hide SeatsOf, Active;
    var n := |rows|;
    var hold := Hold(rid, q.seatIds[n], Reserved, q.expiresAt);
    assert |rows[newId := hold]| == n + 1;
    NewRowFits(c, mine, q, holders, rid, rows, newId);
    SeatsSoFar(c, mine, q, holders, rid, rows, newId);
    PrefixClear(c, mine, q, holders, rid, rows);
  }

  /** The row added is a row of its own for the next seat, and the others are as before. */
  lemma NewRowFits(c: Tables, mine: set<Row>, q: Request, holders: seq<Id>, rid: Id, rows: map<Id, Hold>, newId: Id)
    requires q.SeatsRequest? && RowsOk(c, mine, q, holders, rid, rows)
    requires |rows| < |q.seatIds| && newId !in c.holds && newId !in rows
    requires forall h :: h in rows ==> rows[h].seatId != q.seatIds[|rows|]
    ensures var rows' := rows[newId := Hold(rid, q.seatIds[|rows|], Reserved, q.expiresAt)];
            && (forall h :: h in rows' ==>
                  && HoldRow(h) in mine + {HoldRow(newId)} && h !in c.holds
                  && rows'[h] == Hold(rid, rows'[h].seatId, Reserved, q.expiresAt)
                  && rows'[h].seatId in q.seatIds[..|rows| + 1])
            && (forall g, h :: g in rows' && h in rows' && rows'[g].seatId == rows'[h].seatId ==> g == h)
  {
    PrefixGrows(q.seatIds, |rows|);
  }

  lemma SeatsSoFar(c: Tables, mine: set<Row>, q: Request, holders: seq<Id>, rid: Id, rows: map<Id, Hold>, newId: Id)
    requires q.SeatsRequest? && RowsOk(c, mine, q, holders, rid, rows) && |rows| < |q.seatIds| && newId !in rows
    ensures var rows' := rows[newId := Hold(rid, q.seatIds[|rows|], Reserved, q.expiresAt)];
            forall j :: 0 <= j < |rows| + 1 ==> q.seatIds[j] in SeatsOf(rows')
  {
    hide SeatsOf;
    OneMoreSeat(rows, newId, Hold(rid, q.seatIds[|rows|], Reserved, q.expiresAt));
    assert forall j :: 0 <= j < |rows| ==> q.seatIds[j] in SeatsOf(rows);
  }

  /** With the next seat free as well, the seats up to it are free but for the holders just swept. */
  lemma PrefixClear(c: Tables, mine: set<Row>, q: Request, holders: seq<Id>, rid: Id, rows: map<Id, Hold>)
    requires q.SeatsRequest? && RowsOk(c, mine, q, holders, rid, rows) && |rows| < |q.seatIds|
    requires forall h :: h in c.holds && c.holds[h].seatId == q.seatIds[|rows|] && Active(c.holds[h].status) ==>
               c.holds[h].reservationId in holders && c.holds[h].status == Reserved
    ensures forall h :: h in c.holds && c.holds[h].seatId in q.seatIds[..|rows| + 1] && Active(c.holds[h].status) ==>
              c.holds[h].reservationId in holders && c.holds[h].status == Reserved
  {
    PrefixGrows(q.seatIds, |rows|);
    forall h | h in c.holds && c.holds[h].seatId in q.seatIds[..|rows| + 1] && Active(c.holds[h].status)
      ensures c.holds[h].reservationId in holders && c.holds[h].status == Reserved
    {
      if c.holds[h].seatId != q.seatIds[|rows|] { assert c.holds[h].seatId in q.seatIds[..|rows|]; }
    }
  }

  lemma PrefixGrows(ids: seq<Id>, n: nat)
    requires n < |ids|
    ensures forall x :: x in ids[..n + 1] <==> x in ids[..n] || x == ids[n]
  {
    assert ids[..n + 1] == ids[..n] + [ids[n]];
  }

  lemma OneMoreSeat(rows: map<Id, Hold>, newId: Id, hold: Hold)
    requires newId !in rows
    ensures SeatsOf(rows[newId := hold]) == SeatsOf(rows) + {hold.seatId}
  {
    var rows' := rows[newId := hold];
    forall seat ensures seat in SeatsOf(rows') <==> seat in SeatsOf(rows) + {hold.seatId} {
      if seat in SeatsOf(rows) {
        var h :| h in rows && rows[h].seatId == seat;
        assert h in rows' && rows'[h].seatId == seat;
      }
      assert newId in rows' && rows'[newId].seatId == hold.seatId;
    }
  }

  /** What the insert statement does when it succeeds. */
  lemma InsertHoldEffect(c: Tables, busy: set<Row>, q: Request, w: Writes, st: Stage, now: Time, newId: Id, p: Progress)
    requires q.SeatsRequest? && st.Inserting? && SeatsStep(c, busy, q, w, st, now, newId) == Some(p)
    ensures |st.rows| < |q.seatIds| && newId !in c.holds && newId !in st.rows
    ensures !exists h :: ActiveOn(View(c, w), h, q.seatIds[|st.rows|])
    ensures var hold := Hold(st.rid, q.seatIds[|st.rows|], Reserved, q.expiresAt);
            p == Progress(st.(rows := st.rows[newId := hold]), w.(holds := w.holds[newId := hold]), {HoldRow(newId)})
  {
  }

  lemma InsertHoldOk(c: Tables, mine: set<Row>, busy: set<Row>, q: Request, w: Writes, st: Stage, now: Time, newId: Id,
                     p: Progress)
    requires q.SeatsRequest? && SeatsOk(c, mine, q, w, st) && st.Inserting?
    requires SeatsStep(c, busy, q, w, st, now, newId) == Some(p)
    ensures SeatsOk(c, mine + p.takes, q, p.writes, p.stage)
  {
    hide HoldersOk, HoldUpdates, HeaderUpdates, HeaderFresh, RowsOk, View, SeatsStep, ActiveOn, ToSet;
    InsertHoldEffect(c, busy, q, w, st, now, newId, p);
    HoldersGrow(c, mine, mine + p.takes, q, st.listedAt, st.holders, |st.holders|);
    FreshStays(c, mine, mine + p.takes, st.rid, q.visitor, q.key);
    SeatFree(c, w, st.holders, st.rows, q.seatIds[|st.rows|]);
    RowsFresh(c, mine, q, st.holders, st.rid, st.rows);
    InsertHoldRowsOk(c, mine, q, st.holders, st.rid, st.rows, newId);
    UpdateLast(HoldUpdates(c.holds, ToSet(st.holders), Expired), st.rows, newId, p.stage.rows[newId]);
  }

  lemma FreshStays(c: Tables, mine: set<Row>, more: set<Row>, rid: Id, visitor: Visitor, key: string)
    requires HeaderFresh(c, mine, rid, visitor, key) && mine <= more
    ensures HeaderFresh(c, more, rid, visitor, key)
  {
  }

  lemma UpdateLast(a: map<Id, Hold>, b: map<Id, Hold>, k: Id, hold: Hold)
    ensures (a + b)[k := hold] == a + b[k := hold]
  {
  }

  lemma RowsFresh(c: Tables, mine: set<Row>, q: Request, holders: seq<Id>, rid: Id, rows: map<Id, Hold>)
    requires q.SeatsRequest? && RowsOk(c, mine, q, holders, rid, rows)
    ensures forall h :: h in rows ==> h !in c.holds && rows[h].status == Reserved
  {
  }

  lemma SeatsStepOk(c: Tables, mine: set<Row>, busy: set<Row>, q: Request, w: Writes, st: Stage, now: Time, newId: Id,
                    p: Progress)
    requires Agrees(c) && q.SeatsRequest? && SeatsOk(c, mine, q, w, st)
    requires SeatsStep(c, busy, q, w, st, now, newId) == Some(p)
    ensures SeatsOk(c, mine + p.takes, q, p.writes, p.stage)
  {
    hide HoldersOk, SweptWrites, RowsOk, HeaderFresh, HeaderUpdates, HoldUpdates, Agrees;
    match st {
      case LockingSeats(next, _) =>
        if next < |q.seatIds| {
          LockSeatOk(c, mine, busy, q, w, st, now, newId, p);
        } else {
          ListingOk(c, mine, q, now);
          assert mine + p.takes == mine;
        }
      case LockingHolders(_, holders, next) =>
        if next < |holders| {
          LockHolderOk(c, mine, busy, q, w, st, now, newId, p);
        } else {
          HoldersInRange(c, mine, q, st);
          SweepHoldsOk(c, mine, busy, q, w, st, now, newId, p);
          assert mine + p.takes == mine;
        }
      case HoldersExpired(_, _) =>
        SweepHeadersOk(c, mine, busy, q, w, st, now, newId, p);
        assert mine + p.takes == mine;
      case HeadersExpired(_, _) => InsertSeatsHeaderOk(c, mine, busy, q, w, st, now, newId, p);
      case Inserting(_, _, _, _) => InsertHoldOk(c, mine, busy, q, w, st, now, newId, p);
      case _ =>
    }
  }

  lemma HoldersInRange(c: Tables, mine: set<Row>, q: Request, st: Stage)
    requires q.SeatsRequest? && st.LockingHolders? && HoldersOk(c, mine, q, st.listedAt, st.holders, st.next)
    ensures st.next <= |st.holders|
  {
  }

  lemma OnlySettlersSettle(c: Tables, tx: Tx)
    requires TxOk(c, tx) && tx.stage.Settling?
    ensures tx.request.FinishRequest? || tx.request.BatchRequest?
    ensures SettlingOk(c, tx.rows, tx.request, tx.writes, tx.stage)
  {
  }

  /** Any statement of any transaction keeps its TxOk. */
  lemma StepOk(c: Tables, busy: set<Row>, tx: Tx, now: Time, newId: Id, p: Progress)
    requires Agrees(c) && TxOk(c, tx) && Advance(c, busy, tx, now, newId) == Some(p)
    ensures TxOk(c, Stepped(tx, p))
  {
    hide SettlingOk, SettleStep, QuantityOk, QuantityStep, SeatsOk, SeatsStep, LockHeader, LockBatch, Agrees;
    if tx.stage.Settling? {
      OnlySettlersSettle(c, tx);
      SettleStepOk(c, tx.rows, busy, tx.request, tx.writes, tx.stage, p);
    } else {
      match tx.request
      case FinishRequest(_, _, _) => LockHeaderOk(c, tx.rows, busy, tx.request, now, p);
      case BatchRequest(_) => LockBatchOk(c, tx.rows, busy, tx.request, now, p);
      case QuantityRequest(_, _, _, _, _, _) =>
        QuantityStepOk(c, tx.rows, busy, tx.request, tx.writes, tx.stage, newId, p);
      case SeatsRequest(_, _, _, _, _) => SeatsStepOk(c, tx.rows, busy, tx.request, tx.writes, tx.stage, now, newId, p);
    }
  }
}
