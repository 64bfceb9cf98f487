/**
 What one open transaction has written, as a function of the committed rows it has locked. TxOk holds at every
 statement (modules TxSettles and TxReserves) and survives other transactions' commits (module TxStable), so at
 its own commit the transaction's writes are exactly one serial operation (module TxCommit).
 */
module TxInvariant {
  import opened Schema
  import opened Ordering
  import opened Sums
  import opened Settlement
  import opened Serial
  import opened Machine

  // ---------- cancel, confirm and the worker ----------

  /** Why a reservation is in the queue of a settlement. */
  ghost predicate Deserves(q: Request, r: Id, header: Reservation, target: Status, now: Time) {
    match q
    case FinishRequest(rid, visitor, want) => r == rid && CanAccess(header, visitor)
    && target == Outcome(header, want, now)
    case BatchRequest(_) => target == Expired && header.expiresAt < now
    case _ => false
  }

  ghost predicate Queued(c: Tables, mine: set<Row>, q: Request, r: Id, target: Status, now: Time) {
    && HeaderRow(r) in mine && r in c.reservations
    && c.reservations[r].status == Reserved
    && Deserves(q, r, c.reservations[r], target, now)
  }

  ghost predicate QueueOk(c: Tables, mine: set<Row>, q: Request, target: Status, now: Time, queue: seq<Id>) {
    && target != Reserved
    && Distinct(queue)
    && (q.FinishRequest? ==> queue == [q.rid])
    && (q.BatchRequest? ==> target == Expired)
    && (forall r :: r in queue ==> Queued(c, mine, q, r, target, now))
  }

  /** The reservations whose items and holds have been marked. */
  ghost function MarkedSet(queue: seq<Id>, done: nat, sub: Sub): set<Id>
    requires done <= |queue|
  {
    ToSet(queue[..done]) + if sub.ChildrenDone? && done < |queue| then {queue[done]} else {}
  }

  /** The items whose stock has been moved. */
  ghost function MovedSet(items: map<Id, Item>, marked: set<Id>, sub: Sub): set<Id> {
    Owned(items, marked) + if sub.Moving? && sub.next <= |sub.list| then ToSet(sub.list[..sub.next]) else {}
  }

  ghost predicate SubOk(c: Tables, queue: seq<Id>, done: nat, sub: Sub) {
    && done <= |queue|
    && (!sub.Idle? ==> done < |queue|)
    && (sub.Moving? ==>
          && sub.next <= |sub.list|
          && Distinct(sub.list)
          && queue[done] in c.reservations && c.reservations[queue[done]].kind == Quantity
          && (forall i :: i in sub.list <==> i in c.items && c.items[i].reservationId == queue[done])
          && (forall i :: i in sub.list ==> c.items[i].status == Reserved))
  }

  /** The uncommitted counters: the committed ones less the quantities moved so far. */
  ghost predicate CountersOk(c: Tables, mine: set<Row>, types: map<Id, TicketType>, moved: set<Id>, target: Status) {
    && (forall k :: k in types ==>
          TypeRow(k) in mine && k in c.ticketTypes
          && types[k] == Shift(c.ticketTypes[k], Qty(c.items, moved, k), target))
    && (forall i :: i in moved ==> i in c.items && c.items[i].ticketTypeId in types)
  }

  ghost predicate SettlingOk(c: Tables, mine: set<Row>, q: Request, w: Writes, st: Stage)
    requires st.Settling?
  {
    && QueueOk(c, mine, q, st.target, st.now, st.queue)
    && SubOk(c, st.queue, st.done, st.sub)
    && var marked := MarkedSet(st.queue, st.done, st.sub);
    && w.headers == HeaderUpdates(c.reservations, ToSet(st.queue[..st.done]), st.target)
    && w.items == ItemUpdates(c.items, marked, st.target)
    && w.holds == HoldUpdates(c.holds, marked, st.target)
    && CountersOk(c, mine, w.ticketTypes, MovedSet(c.items, marked, st.sub), st.target)
  }

  // ---------- inserting a header ----------

  ghost predicate HeaderFresh(c: Tables, mine: set<Row>, rid: Id, visitor: Visitor, key: string) {
    && HeaderRow(rid) in mine && KeySlot(visitor.sessionId, key) in mine
    && rid !in c.reservations
    && !KeyTaken(c, visitor.sessionId, key)
  }

  // ---------- reserving a quantity ----------

  ghost predicate StockHeld(c: Tables, mine: set<Row>, q: Request, w: Writes)
    requires q.QuantityRequest?
  {
    && TypeRow(q.typeId) in mine
    && q.typeId in c.ticketTypes && StockFor(c.ticketTypes[q.typeId], q.eventId, q.quantity)
    && var t := c.ticketTypes[q.typeId];
    && w.ticketTypes == map[q.typeId := t.(reserved := t.reserved + q.quantity)]
    && w.holds == map[]
  }

  ghost predicate QuantityOk(c: Tables, mine: set<Row>, q: Request, w: Writes, st: Stage)
    requires q.QuantityRequest?
  {
    match st
    case Start => w == NoWrites()
    case Checked => w == NoWrites()
    case StockTaken => StockHeld(c, mine, q, w) && w.headers == map[] && w.items == map[]
    case QuantityHeader(rid) =>
      && StockHeld(c, mine, q, w) && HeaderFresh(c, mine, rid, q.visitor, q.key)
      && w.headers == map[rid := NewHeader(q.eventId, q.visitor, Quantity, q.key, q.expiresAt)]
      && w.items == map[]
    case QuantityDone(rid, iid) =>
      && StockHeld(c, mine, q, w) && HeaderFresh(c, mine, rid, q.visitor, q.key)
      && w.headers == map[rid := NewHeader(q.eventId, q.visitor, Quantity, q.key, q.expiresAt)]
      && ItemRow(iid) in mine && iid !in c.items
      && w.items == map[iid := Item(rid, q.typeId, q.quantity, Reserved)]
    case Answered => w == NoWrites()
    case _ => false
  }

  // ---------- reserving seats ----------

  ghost predicate SeatLocked(c: Tables, mine: set<Row>, q: Request, seat: Id)
    requires q.SeatsRequest?
  {
    SeatRow(seat) in mine && seat in c.seats && c.seats[seat].eventId == q.eventId
  }

  ghost predicate SeatsLocked(c: Tables, mine: set<Row>, q: Request, n: nat)
    requires q.SeatsRequest? && n <= |q.seatIds|
  {
    forall j :: 0 <= j < n ==> SeatLocked(c, mine, q, q.seatIds[j])
  }

  /** Some hold of r on one of these seats. */
  ghost predicate HoldsOneOf(c: Tables, r: Id, seatIds: seq<Id>) {
    exists h :: h in c.holds && c.holds[h].reservationId == r && c.holds[h].seatId in seatIds
  }

  /** A listed holder was overdue at the listing; it may have left `reserved` since. */
  ghost predicate Listed(c: Tables, r: Id, seatIds: seq<Id>, listedAt: Time) {
    r in c.reservations && c.reservations[r].expiresAt <= listedAt && HoldsOneOf(c, r, seatIds)
  }

  /** No overdue holder of a locked seat can appear after the listing. */
  ghost predicate Covers(c: Tables, seatIds: seq<Id>, listedAt: Time, holders: seq<Id>) {
    forall h :: h in c.holds && c.holds[h].seatId in seatIds && c.holds[h].status == Reserved
      && c.holds[h].expiresAt <= listedAt
      ==> c.holds[h].reservationId in holders
  }

  ghost predicate HoldersOk(c: Tables, mine: set<Row>, q: Request, listedAt: Time, holders: seq<Id>, n: nat)
    requires q.SeatsRequest?
  {
    && SeatsLocked(c, mine, q, |q.seatIds|)
    && n <= |holders|
    && (forall j, k :: 0 <= j < k < |holders| ==> holders[j] < holders[k])
    && (forall r :: r in holders ==> Listed(c, r, q.seatIds, listedAt))
    && Covers(c, q.seatIds, listedAt, holders)
    && (forall j :: 0 <= j < n ==> HeaderRow(holders[j]) in mine)
  }

  ghost predicate SweptWrites(c: Tables, w: Writes, holders: seq<Id>, rows: map<Id, Hold>) {
    && w.ticketTypes == map[] && w.items == map[]
    && w.holds == HoldUpdates(c.holds, ToSet(holders), Expired) + rows
  }

  /** The new holds are for the first |rows| seats, one each, and those seats are otherwise free. */
  ghost predicate RowsOk(c: Tables, mine: set<Row>, q: Request, holders: seq<Id>, rid: Id, rows: map<Id, Hold>)
    requires q.SeatsRequest?
  {
    && |rows| <= |q.seatIds|
    && (forall h :: h in rows ==>
          && HoldRow(h) in mine && h !in c.holds
          && rows[h] == Hold(rid, rows[h].seatId, Reserved, q.expiresAt)
          && rows[h].seatId in q.seatIds[..|rows|])
    && (forall g, h :: g in rows && h in rows && rows[g].seatId == rows[h].seatId ==> g == h)
    && (forall j :: 0 <= j < |rows| ==> q.seatIds[j] in SeatsOf(rows))
    && (forall h :: h in c.holds && c.holds[h].seatId in q.seatIds[..|rows|] && Active(c.holds[h].status) ==>
          c.holds[h].reservationId in holders && c.holds[h].status == Reserved)
  }

  ghost predicate SeatsOk(c: Tables, mine: set<Row>, q: Request, w: Writes, st: Stage)
    requires q.SeatsRequest?
  {
    match st
    case Start => w == NoWrites()
    case Checked => w == NoWrites()
    case LockingSeats(next, missing) =>
      w == NoWrites() && next <= |q.seatIds| && (!missing ==> SeatsLocked(c, mine, q, next))
    case LockingHolders(listedAt, holders, next) => w == NoWrites() && HoldersOk(c, mine, q, listedAt, holders, next)
    case HoldersExpired(listedAt, holders) =>
      HoldersOk(c, mine, q, listedAt, holders, |holders|) && SweptWrites(c, w, holders, map[]) && w.headers == map[]
    case HeadersExpired(listedAt, holders) =>
      && HoldersOk(c, mine, q, listedAt, holders, |holders|) && SweptWrites(c, w, holders, map[])
      && w.headers == HeaderUpdates(c.reservations, ToSet(holders), Expired)
    case Inserting(listedAt, holders, rid, rows) =>
      && HoldersOk(c, mine, q, listedAt, holders, |holders|) && SweptWrites(c, w, holders, rows)
      && HeaderFresh(c, mine, rid, q.visitor, q.key)
      && w.headers == HeaderUpdates(c.reservations, ToSet(holders), Expired)
                      [rid := NewHeader(q.eventId, q.visitor, Seats, q.key, q.expiresAt)]
      && RowsOk(c, mine, q, holders, rid, rows)
    case Answered => w == NoWrites()
    case _ => false
  }

  // ---------- any transaction ----------

  ghost predicate TxOk(c: Tables, tx: Tx) {
    && WellFormed(tx.request)
    && match tx.request
       case FinishRequest(_, _, _) =>
         if tx.stage.Settling? then SettlingOk(c, tx.rows, tx.request, tx.writes, tx.stage)
         else (tx.stage.Start? || tx.stage.Answered?) && tx.writes == NoWrites()
       case BatchRequest(_) =>
         if tx.stage.Settling? then SettlingOk(c, tx.rows, tx.request, tx.writes, tx.stage)
         else tx.stage.Start? && tx.writes == NoWrites()
       case QuantityRequest(_, _, _, _, _, _) => QuantityOk(c, tx.rows, tx.request, tx.writes, tx.stage)
       case SeatsRequest(_, _, _, _, _) => SeatsOk(c, tx.rows, tx.request, tx.writes, tx.stage)
  }

  // ---------- the rows a transaction writes are its own ----------

  ghost predicate HeaderWriteOk(c: Tables, mine: set<Row>, r: Id, header: Reservation) {
    && HeaderRow(r) in mine
    && (if r in c.reservations then
          c.reservations[r].status == Reserved && header.status != Reserved
          && header == c.reservations[r].(status := header.status)
        else KeySlot(header.sessionId, header.key) in mine)
  }

  ghost predicate ItemWriteOk(c: Tables, mine: set<Row>, i: Id, item: Item) {
    && HeaderRow(item.reservationId) in mine
    && (if i in c.items then
          c.items[i].status == Reserved && item.status != Reserved && item == c.items[i].(status := item.status)
        else ItemRow(i) in mine)
  }

  ghost predicate HoldWriteOk(c: Tables, mine: set<Row>, h: Id, hold: Hold) {
    && HeaderRow(hold.reservationId) in mine
    && (if h in c.holds then
          c.holds[h].status == Reserved && hold.status != Reserved && hold == c.holds[h].(status := hold.status)
        else HoldRow(h) in mine && SeatRow(hold.seatId) in mine)
  }

  ghost predicate Footprint(c: Tables, mine: set<Row>, w: Writes) {
    && (forall k :: k in w.ticketTypes ==> TypeRow(k) in mine && k in c.ticketTypes)
    && (forall r :: r in w.headers ==> HeaderWriteOk(c, mine, r, w.headers[r]))
    && (forall i :: i in w.items ==> ItemWriteOk(c, mine, i, w.items[i]))
    && (forall h :: h in w.holds ==> HoldWriteOk(c, mine, h, w.holds[h]))
  }

  lemma SettlingFootprint(c: Tables, mine: set<Row>, q: Request, w: Writes, st: Stage)
    requires st.Settling? && SettlingOk(c, mine, q, w, st)
    ensures Footprint(c, mine, w)
  {
    forall r | r in w.headers ensures HeaderWriteOk(c, mine, r, w.headers[r]) {
      assert r in st.queue;
    }
    forall i | i in w.items ensures ItemWriteOk(c, mine, i, w.items[i]) {
      assert w.items[i].reservationId in st.queue;
    }
    forall h | h in w.holds ensures HoldWriteOk(c, mine, h, w.holds[h]) {
      assert w.holds[h].reservationId in st.queue;
    }
  }

  lemma QuantityFootprint(c: Tables, mine: set<Row>, q: Request, w: Writes, st: Stage)
    requires q.QuantityRequest? && QuantityOk(c, mine, q, w, st)
    ensures Footprint(c, mine, w)
  {
  }

  lemma SweptFootprint(c: Tables, mine: set<Row>, q: Request, w: Writes, listedAt: Time, holders: seq<Id>, h: Id)
    requires q.SeatsRequest? && HoldersOk(c, mine, q, listedAt, holders, |holders|)
    requires h in HoldUpdates(c.holds, ToSet(holders), Expired)
    ensures HoldWriteOk(c, mine, h, HoldUpdates(c.holds, ToSet(holders), Expired)[h])
  {
    assert c.holds[h].reservationId in holders;
  }

  lemma HolderLocked(c: Tables, mine: set<Row>, q: Request, listedAt: Time, holders: seq<Id>, r: Id)
    requires q.SeatsRequest? && HoldersOk(c, mine, q, listedAt, holders, |holders|) && r in holders
    ensures HeaderRow(r) in mine && r in c.reservations
  {
    assert Listed(c, r, q.seatIds, listedAt);
  }

  lemma SweptHeadersFootprint(c: Tables, mine: set<Row>, q: Request, listedAt: Time, holders: seq<Id>)
    requires q.SeatsRequest? && HoldersOk(c, mine, q, listedAt, holders, |holders|)
    ensures var headers := HeaderUpdates(c.reservations, ToSet(holders), Expired);
            forall r :: r in headers ==> HeaderWriteOk(c, mine, r, headers[r])
  {
    hide HoldersOk;
    var headers := HeaderUpdates(c.reservations, ToSet(holders), Expired);
    forall r | r in headers ensures HeaderWriteOk(c, mine, r, headers[r]) {
      HolderLocked(c, mine, q, listedAt, holders, r);
    }
  }

  lemma SeatsHeadersFootprint(c: Tables, mine: set<Row>, q: Request, w: Writes, st: Stage)
    requires q.SeatsRequest? && SeatsOk(c, mine, q, w, st)
    ensures forall r :: r in w.headers ==> HeaderWriteOk(c, mine, r, w.headers[r])
  {
    hide HoldersOk, HeaderUpdates, HoldUpdates, RowsOk, KeyTaken;
    if st.HeadersExpired? || st.Inserting? { SweptHeadersFootprint(c, mine, q, st.listedAt, st.holders); }
  }

  lemma SeatsHoldsFootprint(c: Tables, mine: set<Row>, q: Request, w: Writes, st: Stage)
    requires q.SeatsRequest? && SeatsOk(c, mine, q, w, st)
    ensures forall h :: h in w.holds ==> HoldWriteOk(c, mine, h, w.holds[h])
  {
    hide HeaderUpdates, HoldUpdates, KeyTaken, Listed, Covers;
    if st.HoldersExpired? || st.HeadersExpired? || st.Inserting? {
      forall h | h in w.holds ensures HoldWriteOk(c, mine, h, w.holds[h]) {
        if st.Inserting? && h in st.rows {
          SeatOfRow(c, mine, q, st, h);
        } else {
          SweptFootprint(c, mine, q, w, st.listedAt, st.holders, h);
        }
      }
    }
  }

  lemma SeatsFootprint(c: Tables, mine: set<Row>, q: Request, w: Writes, st: Stage)
    requires q.SeatsRequest? && SeatsOk(c, mine, q, w, st)
    ensures Footprint(c, mine, w)
  {
    hide HoldersOk, HeaderUpdates, HoldUpdates, RowsOk, HeaderFresh, HeaderWriteOk, HoldWriteOk;
    SeatsHeadersFootprint(c, mine, q, w, st);
    SeatsHoldsFootprint(c, mine, q, w, st);
  }

  lemma SeatOfRow(c: Tables, mine: set<Row>, q: Request, st: Stage, h: Id)
    requires q.SeatsRequest? && st.Inserting? && SeatsLocked(c, mine, q, |q.seatIds|)
    requires RowsOk(c, mine, q, st.holders, st.rid, st.rows) && h in st.rows
    ensures SeatRow(st.rows[h].seatId) in mine
  {
    var j :| 0 <= j < |st.rows| && q.seatIds[..|st.rows|][j] == st.rows[h].seatId;
    assert SeatLocked(c, mine, q, q.seatIds[j]);
  }

  lemma TxFootprint(c: Tables, tx: Tx)
    requires TxOk(c, tx)
    ensures Footprint(c, tx.rows, tx.writes)
  {
    if tx.stage.Settling? { SettlingFootprint(c, tx.rows, tx.request, tx.writes, tx.stage); }
    else if tx.request.QuantityRequest? { QuantityFootprint(c, tx.rows, tx.request, tx.writes, tx.stage); }
    else if tx.request.SeatsRequest? { SeatsFootprint(c, tx.rows, tx.request, tx.writes, tx.stage); }
  }
}
