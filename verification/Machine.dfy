/**
 Statement-level interleaving. Any number of transactions run the service's SQL one statement at a time:
 each statement reads the last committed rows (READ COMMITTED) under the transaction's own uncommitted
 writes, exclusive row locks are held to the end of the transaction, and the worker skips locked headers.
 A statement that must wait, or whose transaction is going to fail, has no next step; a transaction may be
 rolled back at any time, so every error path and every lost connection is covered.
 */
module Machine {
  import opened Schema
  import opened Ordering
  import opened Invariant
  import opened Settlement
  import opened Serial

  /** What a transaction can own: a row, or the index entry of an idempotency key it has inserted. */
  datatype Row =
    | TypeRow(id: Id)
    | SeatRow(id: Id)
    | HeaderRow(id: Id)
    | ItemRow(id: Id)
    | HoldRow(id: Id)
    | KeySlot(sessionId: Id, key: string)

  /** The uncommitted row versions of one transaction. */
  datatype Writes = Writes(
    ticketTypes: map<Id, TicketType>, headers: map<Id, Reservation>, items: map<Id, Item>, holds: map<Id, Hold>)

  function NoWrites(): Writes {
    Writes(map[], map[], map[], map[])
  }

  /** What the transaction sees: its own versions over the committed ones. Committing makes this the database. */
  function View(c: Tables, w: Writes): Tables {
    c.(ticketTypes := c.ticketTypes + w.ticketTypes, reservations := c.reservations + w.headers,
       items := c.items + w.items, holds := c.holds + w.holds)
  }

  datatype Request =
    | FinishRequest(rid: Id, visitor: Visitor, want: Status)
    | BatchRequest(limit: nat)
    | QuantityRequest(eventId: Id, typeId: Id, quantity: int, visitor: Visitor, key: string, expiresAt: Time)
    | SeatsRequest(eventId: Id, seatIds: seq<Id>, visitor: Visitor, key: string, expiresAt: Time)

  /** What input parsing guarantees before a transaction is opened. */
  ghost predicate WellFormed(q: Request) {
    match q
    case FinishRequest(_, _, want) => want == Cancelled || want == Confirmed
    case BatchRequest(limit) => limit > 0
    case QuantityRequest(_, _, quantity, _, _, _) => 0 < quantity <= INT32_MAX
    case SeatsRequest(_, seatIds, _, _, _) => seatIds != [] && Ascending(seatIds)
  }

  /** Where a settlement is inside one reservation. */
  datatype Sub = Idle | Moving(list: seq<Id>, next: nat) | ChildrenDone

  datatype Stage =
    | Start
    | Settling(target: Status, now: Time, queue: seq<Id>, done: nat, sub: Sub)
    | Checked
    | StockTaken
    | QuantityHeader(rid: Id)
    | QuantityDone(rid: Id, iid: Id)
    | LockingSeats(next: nat, missing: bool)
    | LockingHolders(listedAt: Time, holders: seq<Id>, next: nat)
    | HoldersExpired(listedAt: Time, holders: seq<Id>)
    | HeadersExpired(listedAt: Time, holders: seq<Id>)
    | Inserting(listedAt: Time, holders: seq<Id>, rid: Id, rows: map<Id, Hold>)
    | Answered

  /** An open transaction, with the rows it has locked. */
  datatype Tx = Tx(request: Request, stage: Stage, writes: Writes, rows: set<Row>)

  /** The result of one statement: where the transaction is, what it wrote, which rows it locked. */
  datatype Progress = Progress(stage: Stage, writes: Writes, takes: set<Row>)

  // ---------- the rows an UPDATE ... WHERE status = 'reserved' writes ----------

  ghost function ItemUpdates(items: map<Id, Item>, rs: set<Id>, target: Status): map<Id, Item> {
    var untouched := set i | i in items && !(items[i].reservationId in rs && items[i].status == Reserved);
    MarkedItems(items, rs, target) - untouched
  }

  ghost function HoldUpdates(holds: map<Id, Hold>, rs: set<Id>, target: Status): map<Id, Hold> {
    var untouched := set h | h in holds && !(holds[h].reservationId in rs && holds[h].status == Reserved);
    MarkedHolds(holds, rs, target) - untouched
  }

  ghost function HeaderUpdates(headers: map<Id, Reservation>, rs: set<Id>, target: Status): map<Id, Reservation> {
    var untouched := set r | r in headers && !(r in rs && headers[r].status == Reserved);
    MarkedHeaders(headers, rs, target) - untouched
  }

  /** The reservation a retry of this key and kind would be answered with exists. */
  ghost predicate Replayable(c: Tables, visitor: Visitor, key: string, kind: Kind) {
    exists r :: r in c.reservations && c.reservations[r].sessionId == visitor.sessionId && c.reservations[r].key == key
      && c.reservations[r].kind == kind && (if kind == Quantity then HasItem(c, r) else HasHold(c, r))
  }

  // ---------- one statement ----------

  /** LockReservationForUpdate, and the clock reading that follows it. */
  ghost function LockHeader(c: Tables, busy: set<Row>, q: Request, w: Writes, now: Time): Option<Progress>
    requires q.FinishRequest?
  {
    if q.rid !in c.reservations || HeaderRow(q.rid) in busy || !CanAccess(c.reservations[q.rid], q.visitor) then None
    else if c.reservations[q.rid].status != Reserved then Some(Progress(Answered, w, {HeaderRow(q.rid)}))
    else
      var target := Outcome(c.reservations[q.rid], q.want, now);
      Some(Progress(Settling(target, now, [q.rid], 0, Idle), w, {HeaderRow(q.rid)}))
  }

  ghost function Due(c: Tables, busy: set<Row>, now: Time): set<Id> {
    set r | r in Overdues(c, now) && HeaderRow(r) !in busy
  }

  /** ListExpiredReservationsForUpdate: FOR UPDATE SKIP LOCKED LIMIT, earliest deadline first. */
  ghost function LockBatch(c: Tables, busy: set<Row>, q: Request, w: Writes, now: Time): Option<Progress>
    requires q.BatchRequest?
  {
    var queue := Prefix(OrderBy(Due(c, busy, now), Deadlines(c)), q.limit);
    Some(Progress(Settling(Expired, now, queue, 0, Idle), w, set r | r in queue :: HeaderRow(r)))
  }

  /** The guarded counter UPDATE for one item of the loop. */
  ghost function MoveStock(c: Tables, busy: set<Row>, w: Writes, st: Stage): Option<Progress>
    requires st.Settling? && st.sub.Moving? && st.sub.next < |st.sub.list|
  {
    var v := View(c, w);
    var x := st.sub.list[st.sub.next];
    var onwards := st.(sub := Moving(st.sub.list, st.sub.next + 1));
    if x !in v.items then None
    else if v.items[x].status != Reserved then Some(Progress(onwards, w, {}))
    else
      var k := v.items[x].ticketTypeId;
      if k !in v.ticketTypes || TypeRow(k) in busy || v.ticketTypes[k].reserved < v.items[x].quantity then None
      else
        var t := Shift(v.ticketTypes[k], v.items[x].quantity, st.target);
        Some(Progress(onwards, w.(ticketTypes := w.ticketTypes[k := t]), {TypeRow(k)}))
  }

  /** ListReservationItems, ordered by (ticket_type_id, id). */
  ghost function ListItems(v: Tables, r: Id): seq<Id> {
    OrderBy(ItemsOf(v.items, r), TypeOrder(v.items))
  }

  /** cancel/confirm/expireLockedReservation, statement by statement, for the reservations of the queue. */
  ghost function SettleStep(c: Tables, busy: set<Row>, w: Writes, st: Stage): Option<Progress>
    requires st.Settling?
  {
    var v := View(c, w);
    if st.done >= |st.queue| || st.queue[st.done] !in v.reservations then None
    else
      var r := st.queue[st.done];
      match st.sub
      case Idle =>
        if v.reservations[r].kind == Quantity then
          Some(Progress(st.(sub := Moving(ListItems(v, r), 0)), w, {}))
        else
          Some(Progress(st.(sub := ChildrenDone), w.(holds := w.holds + HoldUpdates(v.holds, {r}, st.target)), {}))
      case Moving(list, next) =>
        if next < |list| then MoveStock(c, busy, w, st)
        else if forall i :: i in list && i in v.items ==> v.items[i].status != Reserved then None
        else Some(Progress(st.(sub := ChildrenDone), w.(items := w.items + ItemUpdates(v.items, {r}, st.target)), {}))
      case ChildrenDone =>
        // UpdateReservationStatus has no status guard
        var header := v.reservations[r].(status := st.target);
        Some(Progress(st.(done := st.done + 1, sub := Idle), w.(headers := w.headers[r := header]), {}))
  }

  ghost function InsertHeader(c: Tables, busy: set<Row>, w: Writes, header: Reservation, rid: Id,
                              next: Stage): Option<Progress> {
    var rows := {HeaderRow(rid), KeySlot(header.sessionId, header.key)};
    if rid in c.reservations || KeyTaken(c, header.sessionId, header.key) || !(rows !! busy) then None
    else Some(Progress(next, w.(headers := w.headers[rid := header]), rows))
  }

  ghost function QuantityStep(c: Tables, busy: set<Row>, q: Request, w: Writes, st: Stage, newId: Id): Option<Progress>
    requires q.QuantityRequest?
  {
    match st
    case Start =>
      Some(Progress(if Replayable(c, q.visitor, q.key, Quantity) then Answered else Checked, w, {}))
    case Checked =>
      if q.typeId !in c.ticketTypes || TypeRow(q.typeId) in busy
        || !StockFor(c.ticketTypes[q.typeId], q.eventId, q.quantity) then None
      else
        var t := c.ticketTypes[q.typeId];
        var taken := t.(reserved := t.reserved + q.quantity);
        Some(Progress(StockTaken, w.(ticketTypes := w.ticketTypes[q.typeId := taken]), {TypeRow(q.typeId)}))
    case StockTaken =>
      InsertHeader(c, busy, w, NewHeader(q.eventId, q.visitor, Quantity, q.key, q.expiresAt), newId,
        QuantityHeader(newId))
    case QuantityHeader(rid) =>
      if newId in c.items || ItemRow(newId) in busy then None
      else Some(Progress(QuantityDone(rid, newId),
                         w.(items := w.items[newId := Item(rid, q.typeId, q.quantity, Reserved)]), {ItemRow(newId)}))
    case _ => None
  }

  ghost function SeatsStep(c: Tables, busy: set<Row>, q: Request, w: Writes, st: Stage, now: Time,
                           newId: Id): Option<Progress>
    requires q.SeatsRequest?
  {
    match st
    case Start =>
      Some(Progress(if Replayable(c, q.visitor, q.key, Seats) then Answered else Checked, w, {}))
    case Checked => Some(Progress(LockingSeats(0, false), w, {}))
    case LockingSeats(next, missing) =>
      if next < |q.seatIds| then
        var seat := q.seatIds[next];
        if seat in c.seats && c.seats[seat].eventId == q.eventId then
          if SeatRow(seat) in busy then None else Some(Progress(LockingSeats(next + 1, missing), w, {SeatRow(seat)}))
        else Some(Progress(LockingSeats(next + 1, true), w, {}))
      else if missing then None
      else Some(Progress(LockingHolders(now, ById(OverdueHolders(c, ToSet(q.seatIds), now)), 0), w, {}))
    case LockingHolders(listedAt, holders, next) =>
      if next < |holders| then
        if HeaderRow(holders[next]) in busy then None
        else Some(Progress(LockingHolders(listedAt, holders, next + 1), w, {HeaderRow(holders[next])}))
      else
        var swept := HoldUpdates(View(c, w).holds, ToSet(holders), Expired);
        Some(Progress(HoldersExpired(listedAt, holders), w.(holds := w.holds + swept), {}))
    case HoldersExpired(listedAt, holders) =>
      var swept := HeaderUpdates(View(c, w).reservations, ToSet(holders), Expired);
      Some(Progress(HeadersExpired(listedAt, holders), w.(headers := w.headers + swept), {}))
    case HeadersExpired(listedAt, holders) =>
      InsertHeader(c, busy, w, NewHeader(q.eventId, q.visitor, Seats, q.key, q.expiresAt), newId,
        Inserting(listedAt, holders, newId, map[]))
    case Inserting(listedAt, holders, rid, rows) =>
      if |rows| >= |q.seatIds| || newId in c.holds || newId in rows || HoldRow(newId) in busy then None
      else
        var seat := q.seatIds[|rows|];
        if exists h :: ActiveOn(View(c, w), h, seat) then None
        else var hold := Hold(rid, seat, Reserved, q.expiresAt);
             Some(Progress(Inserting(listedAt, holders, rid, rows[newId := hold]),
                           w.(holds := w.holds[newId := hold]), {HoldRow(newId)}))
    case _ => None
  }

  /** The next statement of a transaction, if it can run now. */
  ghost function Advance(c: Tables, busy: set<Row>, tx: Tx, now: Time, newId: Id): Option<Progress> {
    if tx.stage.Settling? then SettleStep(c, busy, tx.writes, tx.stage)
    else
      match tx.request
      case FinishRequest(_, _, _) => if tx.stage.Start? then LockHeader(c, busy, tx.request, tx.writes, now) else None
      case BatchRequest(_) => if tx.stage.Start? then LockBatch(c, busy, tx.request, tx.writes, now) else None
      case QuantityRequest(_, _, _, _, _, _) => QuantityStep(c, busy, tx.request, tx.writes, tx.stage, newId)
      case SeatsRequest(_, _, _, _, _) => SeatsStep(c, busy, tx.request, tx.writes, tx.stage, now, newId)
  }

  /** All statements have run; only COMMIT is left. */
  predicate Finished(tx: Tx) {
    match tx.stage
    case Settling(_, _, queue, done, _) => done == |queue|
    case QuantityDone(_, _) => tx.request.QuantityRequest?
    case Inserting(_, _, _, rows) => tx.request.SeatsRequest? && |rows| == |tx.request.seatIds|
    case Answered => true
    case _ => false
  }

  /** The serial operation a finished transaction stands for. */
  ghost function OpOf(tx: Tx): Op {
    match tx.stage
    case Settling(_, now, queue, _, _) =>
      (match tx.request
       case FinishRequest(rid, visitor, want) => Finish(rid, visitor, want, now)
       case _ => ExpireBatch(ToSet(queue), now))
    case QuantityDone(rid, iid) =>
      if tx.request.QuantityRequest? then
        var q := tx.request;
        TakeQuantity(rid, iid, q.eventId, q.typeId, q.quantity, q.visitor, q.key, q.expiresAt)
      else ReadOnly
    case Inserting(listedAt, _, rid, rows) =>
      if tx.request.SeatsRequest? then
        var q := tx.request;
        TakeSeats(rid, rows, q.eventId, q.visitor, q.key, q.expiresAt, listedAt)
      else ReadOnly
    case _ => ReadOnly
  }

  // ---------- the whole system ----------

  /** The committed database, the open transactions, and the commits so far. */
  datatype System = System(committed: Tables, txs: map<nat, Tx>, history: seq<Op>)

  datatype Event =
    | Begin(t: nat, request: Request)
    | Step(t: nat, now: Time, newId: Id)
    | Commit(t: nat)
    | Rollback(t: nat)

  /** The rows locked by transactions other than t. */
  ghost function Busy(m: System, t: nat): set<Row> {
    set u, x | u in m.txs && u != t && x in m.txs[u].rows :: x
  }

  ghost function StepOf(m: System, e: Event): Option<Progress>
    requires e.Step? && e.t in m.txs
  {
    Advance(m.committed, Busy(m, e.t), m.txs[e.t], e.now, e.newId)
  }

  ghost predicate Enabled(m: System, e: Event) {
    match e
    case Begin(t, request) => t !in m.txs && WellFormed(request)
    case Step(t, _, _) => t in m.txs && StepOf(m, e).Some?
    case Commit(t) => t in m.txs && Finished(m.txs[t])
    case Rollback(t) => t in m.txs
  }

  function Stepped(tx: Tx, p: Progress): Tx {
    Tx(tx.request, p.stage, p.writes, tx.rows + p.takes)
  }

  ghost function Do(m: System, e: Event): System
    requires Enabled(m, e)
  {
    match e
    case Begin(t, request) => m.(txs := m.txs[t := Tx(request, Start, NoWrites(), {})])
    case Step(t, _, _) => m.(txs := m.txs[t := Stepped(m.txs[t], StepOf(m, e).value)])
    case Commit(t) => System(View(m.committed, m.txs[t].writes), m.txs - {t}, m.history + [OpOf(m.txs[t])])
    case Rollback(t) => m.(txs := m.txs - {t})
  }

  /** The system reached from an idle database by a sequence of events, as far as they are enabled. */
  ghost function Run(s: Tables, events: seq<Event>): System {
    if events == [] then System(s, map[], [])
    else
      var m := Run(s, events[..|events| - 1]);
      if Enabled(m, events[|events| - 1]) then Do(m, events[|events| - 1]) else m
  }
}
