/** The read views: what the seat and ticket inventories of an event tell a client about what can be reserved. */
module Inventory {
  import opened Schema
  import opened Ordering
  import opened Sums
  import opened Invariant
  import opened Serial
  import opened Queries

  datatype Availability = Available | Held | Sold

  /** A row of the join: a seat, and the active hold it was joined with, if there is one. */
  datatype JoinRow = JoinRow(seatId: Id, hold: Option<Id>)

  datatype SeatRow = SeatRow(seatId: Id, seat: Seat, status: Availability)

  /** seats LEFT JOIN reservation_seats ON seat_id AND status IN ('reserved', 'confirmed') */
  function SeatJoin(s: Tables, eventId: Id): set<JoinRow> {
    (set h | h in s.holds && Active(s.holds[h].status) && s.holds[h].seatId in s.seats
      && s.seats[s.holds[h].seatId].eventId == eventId
       :: JoinRow(s.holds[h].seatId, Some(h)))
    + (set k | k in s.seats && s.seats[k].eventId == eventId && ActiveHolds(s, k) == {} :: JoinRow(k, None))
  }

  /** The CASE of the select list. */
  function StatusOf(s: Tables, row: JoinRow): Availability {
    if row.hold.None? || row.hold.value !in s.holds then Available
    else match s.holds[row.hold.value].status
         case Confirmed => Sold
         case Reserved => Held
         case _ => Available
  }

  /**
   An answer of ListSeatInventoryByEvent: the join rows, each once. rank stands for ORDER BY section, row_name,
   seat_number under the database's collation; ties are broken by seat id, then in any order.
   */
  ghost predicate SeatInventory(s: Tables, eventId: Id, rank: Id -> int, rows: seq<JoinRow>) {
    && (forall row :: row in rows <==> row in SeatJoin(s, eventId))
    && (forall j, k :: 0 <= j < k < |rows| ==> rows[j] != rows[k])
    && (forall j, k :: 0 <= j < k < |rows| ==> !Before(rank, rows[k].seatId, rows[j].seatId))
  }

  /**
   Because a seat has at most one active hold, the join lists each seat of the event exactly once, strictly in
   order.
   */
  lemma EachSeatOnce(s: Tables, eventId: Id, rank: Id -> int, rows: seq<JoinRow>)
    requires ActiveUnique(s) && SeatInventory(s, eventId, rank, rows)
    ensures forall k ::
              k in s.seats && s.seats[k].eventId == eventId <==> exists j :: 0 <= j < |rows| && rows[j].seatId == k
    ensures forall j, k :: 0 <= j < k < |rows| ==>
              rows[j].seatId != rows[k].seatId && Before(rank, rows[j].seatId, rows[k].seatId)
  {
    forall k | k in s.seats && s.seats[k].eventId == eventId
      ensures exists j :: 0 <= j < |rows| && rows[j].seatId == k
    {
      SeatHasRow(s, eventId, k);
      var row :| row in SeatJoin(s, eventId) && row.seatId == k;
      assert row in rows;
    }
    forall j | 0 <= j < |rows| ensures rows[j].seatId in s.seats && s.seats[rows[j].seatId].eventId == eventId {
      assert rows[j] in rows;
    }
    forall j, k | 0 <= j < k < |rows| ensures rows[j].seatId != rows[k].seatId {
      assert rows[j] in rows && rows[k] in rows && rows[j] != rows[k];
      if rows[j].seatId == rows[k].seatId { OneRowPerSeat(s, eventId, rows[j], rows[k]); }
    }
  }

  lemma SeatHasRow(s: Tables, eventId: Id, k: Id)
    requires k in s.seats && s.seats[k].eventId == eventId
    ensures exists row :: row in SeatJoin(s, eventId) && row.seatId == k
  {
    if ActiveHolds(s, k) == {} {
      assert JoinRow(k, None) in SeatJoin(s, eventId);
    } else {
      var h :| h in ActiveHolds(s, k);
      assert JoinRow(k, Some(h)) in SeatJoin(s, eventId);
    }
  }

  lemma OneRowPerSeat(s: Tables, eventId: Id, a: JoinRow, b: JoinRow)
    requires ActiveUnique(s) && a in SeatJoin(s, eventId) && b in SeatJoin(s, eventId) && a.seatId == b.seatId
    ensures a == b
  {
    assert a.hold.Some? ==> a.hold.value in ActiveHolds(s, a.seatId);
    assert b.hold.Some? ==> b.hold.value in ActiveHolds(s, a.seatId);
    if a.hold.Some? && b.hold.Some? {
      assert ActiveOn(s, a.hold.value, a.seatId) && ActiveOn(s, b.hold.value, a.seatId);
    }
  }

  /** ListSeatInventoryByEvent's loop over the rows of the cursor. */
  method CollectSeats(s: Tables, eventId: Id, rank: Id -> int, rows: seq<JoinRow>) returns (items: seq<SeatRow>)
    requires SeatInventory(s, eventId, rank, rows)
    ensures |items| == |rows|
    ensures forall j :: 0 <= j < |rows| ==>
              rows[j].seatId in s.seats
              && items[j] == SeatRow(rows[j].seatId, s.seats[rows[j].seatId], StatusOf(s, rows[j]))
  {
    items := [];
    for n := 0 to |rows|
      invariant |items| == n
      invariant forall j :: 0 <= j < n ==>
                  rows[j].seatId in s.seats
                  && items[j] == SeatRow(rows[j].seatId, s.seats[rows[j].seatId], StatusOf(s, rows[j]))
    {
      assert rows[n] in rows;
      items := items + [SeatRow(rows[n].seatId, s.seats[rows[n].seatId], StatusOf(s, rows[n]))];
    }
  }

  // ---------- what the status promises ----------

  /**
   The status against what ReserveSeats would do with that seat at time t: 'available' can be taken, 'confirmed'
   cannot, and 'reserved' can exactly when its hold is due, although the view still says 'reserved'.
   */
  lemma StatusMeans(s: Tables, eventId: Id, row: JoinRow, t: Time)
    requires ActiveUnique(s) && row in SeatJoin(s, eventId)
    ensures Bookable(s, {row.seatId}, t) <==>
              match StatusOf(s, row)
              case Available => true
              case Sold => false
              case Held => s.holds[row.hold.value].expiresAt <= t
  {
    match row.hold
    case None =>
      forall h | h in s.holds && s.holds[h].seatId in {row.seatId} ensures !Active(s.holds[h].status) {
        assert h !in ActiveHolds(s, row.seatId);
      }
    case Some(h) =>
      assert ActiveOn(s, h, row.seatId);
      forall g | g in s.holds && s.holds[g].seatId in {row.seatId} && Active(s.holds[g].status) ensures g == h {
        assert ActiveOn(s, g, row.seatId);
      }
  }

  /** A request for several seats goes through exactly when each of them would on its own. */
  lemma BookableSeatBySeat(s: Tables, seats: set<Id>, t: Time)
    ensures Bookable(s, seats, t) <==> forall seat :: seat in seats ==> Bookable(s, {seat}, t)
  {
    if forall seat :: seat in seats ==> Bookable(s, {seat}, t) {
      forall h | h in s.holds && s.holds[h].seatId in seats && Active(s.holds[h].status)
        ensures s.holds[h].status == Reserved && s.holds[h].expiresAt <= t
      {
        assert Bookable(s, {s.holds[h].seatId}, t);
      }
    }
  }

  // ---------- ticket types ----------

  /** `total_quantity - sold_quantity - reserved_quantity`, evaluated left to right in int32. */
  function AvailableQuantity(t: TicketType): (n: int32)
    requires CounterOk(t)
    ensures 0 <= n
  {
    t.total as int32 - t.sold as int32 - t.reserved as int32
  }

  /**
   The published availability is the stock not taken by reserved or confirmed items, and exactly what can be
   reserved.
   */
  lemma AvailabilityMeans(s: Tables, k: Id, quantity: int)
    requires Inv(s) && k in s.ticketTypes
    ensures var t := s.ticketTypes[k];
            && AvailableQuantity(t) as int
               == t.total - Qty(s.items, WithStatus(s.items, Reserved) + WithStatus(s.items, Confirmed), k)
            && (StockFor(t, t.eventId, quantity) <==> quantity <= AvailableQuantity(t) as int)
  {
    QtyUnion(s.items, WithStatus(s.items, Reserved), WithStatus(s.items, Confirmed), k);
  }
}
