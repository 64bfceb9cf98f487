/**
 The committed effects of the service, run one at a time: what each transaction may do (Legal), what it does
 (Apply), and what holds over whole runs. module Service shows that each operation run alone has
 these effects; module Serializable shows that every interleaving of statements commits a legal run of them.
 */
module Serial {
  import opened Schema
  import opened Sums
  import opened Invariant
  import opened Settlement

  /** A committed transaction, with the clock readings and fresh ids it saw. */
  datatype Op =
    | ReadOnly
    | TakeQuantity(rid: Id, iid: Id, eventId: Id, typeId: Id, quantity: int, visitor: Visitor, key: string,
                   expiresAt: Time)
    | TakeSeats(rid: Id, rows: map<Id, Hold>, eventId: Id, visitor: Visitor, key: string, expiresAt: Time,
                listedAt: Time)
    | Finish(rid: Id, visitor: Visitor, want: Status, now: Time)
    | ExpireBatch(rs: set<Id>, now: Time)

  /** What a cancel or confirm turns a reserved reservation into: past the deadline it can only expire. */
  function Outcome(header: Reservation, want: Status, now: Time): Status {
    if Overdue(header, now) then Expired else want
  }

  predicate KeyTaken(s: Tables, sessionId: Id, key: string) {
    exists r :: r in s.reservations && s.reservations[r].sessionId == sessionId && s.reservations[r].key == key
  }

  /** ListExpiredActiveReservationIDsForSeats */
  function OverdueHolders(s: Tables, seats: set<Id>, now: Time): set<Id> {
    set h | h in s.holds && s.holds[h].seatId in seats && s.holds[h].status == Reserved && s.holds[h].expiresAt <= now
      :: s.holds[h].reservationId
  }

  /** The reserved reservations past their deadline at now, and the order in which the worker takes them. */
  function Overdues(s: Tables, now: Time): set<Id> {
    set r | r in s.reservations && s.reservations[r].status == Reserved && s.reservations[r].expiresAt < now
  }

  function Deadlines(s: Tables): Id -> int {
    r => if r in s.reservations then s.reservations[r].expiresAt else 0
  }

  /** No seat is held by anyone the sweep at listedAt would not expire. */
  ghost predicate Bookable(s: Tables, seats: set<Id>, listedAt: Time) {
    forall h :: h in s.holds && s.holds[h].seatId in seats && Active(s.holds[h].status) ==>
      s.holds[h].status == Reserved && s.holds[h].expiresAt <= listedAt
  }

  predicate StockFor(t: TicketType, eventId: Id, quantity: int) {
    t.eventId == eventId && t.total - t.sold - t.reserved >= quantity
  }

  function NewHeader(eventId: Id, visitor: Visitor, kind: Kind, key: string, expiresAt: Time): Reservation {
    Reservation(eventId, visitor.sessionId, visitor.userId, Reserved, kind, key, expiresAt)
  }

  ghost function SeatsOf(rows: map<Id, Hold>): set<Id> {
    set h | h in rows :: rows[h].seatId
  }

  /** One new reserved row per seat, for existing seats of the event. */
  ghost predicate RowsFit(s: Tables, rid: Id, rows: map<Id, Hold>, eventId: Id, expiresAt: Time) {
    && rows.Keys !! s.holds.Keys
    && (exists h :: h in rows)
    && (forall h :: h in rows ==>
          && rows[h] == Hold(rid, rows[h].seatId, Reserved, expiresAt)
          && rows[h].seatId in s.seats && s.seats[rows[h].seatId].eventId == eventId)
    && (forall g, h :: g in rows && h in rows && rows[g].seatId == rows[h].seatId ==> g == h)
  }

  ghost predicate Legal(s: Tables, op: Op) {
    match op
    case ReadOnly => true
    case TakeQuantity(rid, iid, eventId, typeId, quantity, visitor, key, _) =>
      && rid !in s.reservations && iid !in s.items
      && 0 < quantity <= INT32_MAX
      && typeId in s.ticketTypes && StockFor(s.ticketTypes[typeId], eventId, quantity)
      && !KeyTaken(s, visitor.sessionId, key)
    case TakeSeats(rid, rows, eventId, visitor, key, expiresAt, listedAt) =>
      && rid !in s.reservations
      && RowsFit(s, rid, rows, eventId, expiresAt)
      && !KeyTaken(s, visitor.sessionId, key)
      && Bookable(s, SeatsOf(rows), listedAt)
    case Finish(rid, visitor, want, _) =>
      && (want == Cancelled || want == Confirmed)
      && rid in s.reservations && s.reservations[rid].status == Reserved && CanAccess(s.reservations[rid], visitor)
    case ExpireBatch(rs, now) =>
      forall r :: r in rs ==>
        r in s.reservations && s.reservations[r].status == Reserved && s.reservations[r].expiresAt < now
  }

  /** The reservations an operation takes out of `reserved`. */
  ghost function Leaving(s: Tables, op: Op): set<Id> {
    match op
    case ReadOnly => {}
    case TakeQuantity(_, _, _, _, _, _, _, _) => {}
    case TakeSeats(_, rows, _, _, _, _, listedAt) => OverdueHolders(s, SeatsOf(rows), listedAt)
    case Finish(rid, _, _, _) => {rid}
    case ExpireBatch(rs, _) => rs
  }

  ghost function InsertQuantity(s: Tables, op: Op): Tables
    requires op.TakeQuantity? && op.typeId in s.ticketTypes
  {
    var t := s.ticketTypes[op.typeId];
    s.(ticketTypes := s.ticketTypes[op.typeId := t.(reserved := t.reserved + op.quantity)],
       reservations := s.reservations[op.rid := NewHeader(op.eventId, op.visitor, Quantity, op.key, op.expiresAt)],
       items := s.items[op.iid := Item(op.rid, op.typeId, op.quantity, Reserved)])
  }

  ghost function InsertSeats(s: Tables, op: Op): Tables
    requires op.TakeSeats?
  {
    s.(reservations := s.reservations[op.rid := NewHeader(op.eventId, op.visitor, Seats, op.key, op.expiresAt)],
       holds := s.holds + op.rows)
  }

  ghost function Apply(s: Tables, op: Op): Tables
    requires Legal(s, op)
  {
    match op
    case ReadOnly => s
    case TakeQuantity(_, _, _, _, _, _, _, _) => InsertQuantity(s, op)
    case TakeSeats(_, _, _, _, _, _, _) => InsertSeats(Settle(s, Leaving(s, op), Expired), op)
    case Finish(rid, _, want, now) => Settle(s, {rid}, Outcome(s.reservations[rid], want, now))
    case ExpireBatch(rs, _) => Settle(s, rs, Expired)
  }

  // ---------- the invariant ----------

  lemma InsertQuantityConserves(s: Tables, op: Op)
    requires Conserved(s) && op.TakeQuantity? && op.typeId in s.ticketTypes && op.iid !in s.items
    ensures Conserved(InsertQuantity(s, op))
  {
    var s' := InsertQuantity(s, op);
    forall k | k in s'.ticketTypes
      ensures s'.ticketTypes[k].reserved == Qty(s'.items, WithStatus(s'.items, Reserved), k)
      ensures s'.ticketTypes[k].sold == Qty(s'.items, WithStatus(s'.items, Confirmed), k)
    {
      var held, sold := WithStatus(s.items, Reserved), WithStatus(s.items, Confirmed);
      assert WithStatus(s'.items, Reserved) == held + {op.iid};
      assert WithStatus(s'.items, Confirmed) == sold;
      QtyAdd(s'.items, held, op.iid, k);
      QtySame(s.items, s'.items, held, k);
      QtySame(s.items, s'.items, sold, k);
    }
  }

  /** A new header under a free key keeps keys unique, whatever else changes. */
  lemma NewKeyUnique(s: Tables, s': Tables, rid: Id, header: Reservation)
    requires KeysUnique(s) && !KeyTaken(s, header.sessionId, header.key)
    requires s'.reservations == s.reservations[rid := header]
    ensures KeysUnique(s')
  {
    forall a, b | a in s'.reservations && b in s'.reservations && SameKey(s'.reservations[a], s'.reservations[b])
      ensures a == b
    {
      assert a != rid && b != rid ==> SameKey(s.reservations[a], s.reservations[b]);
    }
  }

  lemma InsertQuantityChecks(s: Tables, op: Op)
    requires ChecksOk(s) && op.TakeQuantity? && op.typeId in s.ticketTypes && 0 < op.quantity <= INT32_MAX
    requires StockFor(s.ticketTypes[op.typeId], op.eventId, op.quantity)
    ensures ChecksOk(InsertQuantity(s, op))
  {
  }

  lemma InsertQuantityReferences(s: Tables, op: Op)
    requires ReferencesOk(s) && op.TakeQuantity? && op.typeId in s.ticketTypes
    requires s.ticketTypes[op.typeId].eventId == op.eventId
    ensures ReferencesOk(InsertQuantity(s, op))
  {
  }

  lemma InsertQuantityConstraints(s: Tables, op: Op)
    requires Constraints(s) && op.TakeQuantity? && Legal(s, op)
    ensures Constraints(InsertQuantity(s, op))
  {
    var s' := InsertQuantity(s, op);
    NewKeyUnique(s, s', op.rid, s'.reservations[op.rid]);
    InsertQuantityChecks(s, op);
    InsertQuantityReferences(s, op);
    forall g, h, seat | ActiveOn(s', g, seat) && ActiveOn(s', h, seat) ensures g == h {
      assert ActiveOn(s, g, seat) && ActiveOn(s, h, seat);
    }
  }

  lemma InsertQuantityAgrees(s: Tables, op: Op)
    requires Agrees(s) && op.TakeQuantity? && op.rid !in s.reservations && op.iid !in s.items
    requires op.typeId in s.ticketTypes && s.ticketTypes[op.typeId].eventId == op.eventId
    ensures Agrees(InsertQuantity(s, op))
  {
    hide HoldAgrees, HasHold, HasItem;
    var s' := InsertQuantity(s, op);
    OthersStay(s, s', op.rid);
    forall i | i in s'.items ensures ItemAgrees(s', s'.items[i]) {
      if i != op.iid { assert s'.items[i] == s.items[i]; }
    }
    forall r | r in s'.reservations
      ensures if s'.reservations[r].kind == Quantity then HasItem(s', r) else HasHold(s', r)
    {
      ChildrenStay(s, s', r);
      if r == op.rid { FirstItem(s', op.rid, op.iid); }
    }
  }

  lemma FirstItem(s: Tables, r: Id, i: Id)
    requires i in s.items && s.items[i].reservationId == r
    ensures HasItem(s, r)
  {
  }

  lemma ItemStays(s: Tables, s': Tables, item: Item)
    requires ItemAgrees(s, item)
    requires item.reservationId in s'.reservations
             && s'.reservations[item.reservationId] == s.reservations[item.reservationId]
    requires item.ticketTypeId in s'.ticketTypes
    requires s'.ticketTypes[item.ticketTypeId].eventId == s.ticketTypes[item.ticketTypeId].eventId
    ensures ItemAgrees(s', item)
  {
  }

  lemma HoldStays(s: Tables, s': Tables, hold: Hold)
    requires HoldAgrees(s, hold)
    requires hold.reservationId in s'.reservations
             && s'.reservations[hold.reservationId] == s.reservations[hold.reservationId]
    requires s'.seats == s.seats
    ensures HoldAgrees(s', hold)
  {
  }

  lemma ChildrenStay(s: Tables, s': Tables, r: Id)
    requires forall i :: i in s.items && i in s'.items ==> s'.items[i].reservationId == s.items[i].reservationId
    requires forall h :: h in s.holds && h in s'.holds ==> s'.holds[h].reservationId == s.holds[h].reservationId
    requires forall i :: i in s.items ==> i in s'.items
    requires forall h :: h in s.holds ==> h in s'.holds
    ensures HasItem(s, r) ==> HasItem(s', r)
    ensures HasHold(s, r) ==> HasHold(s', r)
  {
    if HasItem(s, r) {
      var i :| i in s.items && s.items[i].reservationId == r;
      assert i in s'.items && s'.items[i].reservationId == r;
    }
    if HasHold(s, r) {
      var h :| h in s.holds && s.holds[h].reservationId == r;
      assert h in s'.holds && s'.holds[h].reservationId == r;
    }
  }

  /** After the sweep nothing active is left on bookable seats. */
  lemma SweepFrees(s: Tables, seats: set<Id>, listedAt: Time)
    requires Inv(s) && Bookable(s, seats, listedAt)
    ensures var s1 := Settle(s, OverdueHolders(s, seats, listedAt), Expired);
            forall h, seat :: ActiveOn(s1, h, seat) ==> seat !in seats
  {
    var rs := OverdueHolders(s, seats, listedAt);
    var s1 := Settle(s, rs, Expired);
    forall h | h in s.holds && s.holds[h].seatId in seats ensures !Active(MarkHold(s.holds[h], rs, Expired).status) {
      if Active(s.holds[h].status) { assert s.holds[h].reservationId in rs; }
    }
  }

  lemma InsertSeatsActiveUnique(s: Tables, op: Op)
    requires ActiveUnique(s) && op.TakeSeats? && RowsFit(s, op.rid, op.rows, op.eventId, op.expiresAt)
    requires forall h, seat :: ActiveOn(s, h, seat) ==> seat !in SeatsOf(op.rows)
    ensures ActiveUnique(InsertSeats(s, op))
  {
    var s' := InsertSeats(s, op);
    forall g, h, seat | ActiveOn(s', g, seat) && ActiveOn(s', h, seat) ensures g == h {
      assert g !in op.rows ==> ActiveOn(s, g, seat);
      assert h !in op.rows ==> ActiveOn(s, h, seat);
      assert g in op.rows ==> op.rows[g].seatId == seat && seat in SeatsOf(op.rows);
      assert h in op.rows ==> op.rows[h].seatId == seat && seat in SeatsOf(op.rows);
    }
  }

  lemma InsertSeatsReferences(s: Tables, op: Op)
    requires ReferencesOk(s) && op.TakeSeats? && RowsFit(s, op.rid, op.rows, op.eventId, op.expiresAt)
    ensures ReferencesOk(InsertSeats(s, op))
  {
    var s' := InsertSeats(s, op);
    var h :| h in op.rows;
    assert s.seats[op.rows[h].seatId].eventId in s.events;
    forall h | h in s'.holds ensures s'.holds[h].reservationId in s'.reservations && s'.holds[h].seatId in s'.seats {
      assert h !in op.rows ==> h in s.holds;
    }
  }

  /** A new header of its own, and children added only under it, disturb nobody else. */
  lemma OthersStay(s: Tables, s': Tables, rid: Id)
    requires Agrees(s) && rid !in s.reservations && s'.seats == s.seats
    requires forall r :: r in s.reservations ==> r in s'.reservations && s'.reservations[r] == s.reservations[r]
    requires forall k :: k in s.ticketTypes ==>
               k in s'.ticketTypes && s'.ticketTypes[k].eventId == s.ticketTypes[k].eventId
    ensures forall i :: i in s.items ==> ItemAgrees(s', s.items[i])
    ensures forall h :: h in s.holds ==> HoldAgrees(s', s.holds[h])
  {
    forall i | i in s.items ensures ItemAgrees(s', s.items[i]) { ItemStays(s, s', s.items[i]); }
    forall h | h in s.holds ensures HoldAgrees(s', s.holds[h]) { HoldStays(s, s', s.holds[h]); }
  }

  lemma InsertSeatsAgrees(s: Tables, op: Op)
    requires Agrees(s) && op.TakeSeats? && op.rid !in s.reservations
    requires RowsFit(s, op.rid, op.rows, op.eventId, op.expiresAt)
    ensures Agrees(InsertSeats(s, op))
  {
    hide ItemAgrees, HasItem, HasHold;
    var s' := InsertSeats(s, op);
    OthersStay(s, s', op.rid);
    forall h | h in s'.holds ensures HoldAgrees(s', s'.holds[h]) {
      if h !in op.rows { assert s'.holds[h] == s.holds[h]; }
    }
    forall r | r in s'.reservations
      ensures if s'.reservations[r].kind == Quantity then HasItem(s', r) else HasHold(s', r)
    {
      ChildrenStay(s, s', r);
      if r == op.rid { FirstHold(s, s', op); }
    }
  }

  lemma FirstHold(s: Tables, s': Tables, op: Op)
    requires op.TakeSeats? && RowsFit(s, op.rid, op.rows, op.eventId, op.expiresAt) && s'.holds == s.holds + op.rows
    ensures HasHold(s', op.rid)
  {
    var first :| first in op.rows;
    assert first in s'.holds && s'.holds[first].reservationId == op.rid;
  }

  lemma ApplyKeepsInv(s: Tables, op: Op)
    requires Inv(s) && Legal(s, op)
    ensures Inv(Apply(s, op))
  {
    match op
    case ReadOnly =>
    case TakeQuantity(_, _, _, _, _, _, _, _) =>
      InsertQuantityConstraints(s, op);
      InsertQuantityConserves(s, op);
      InsertQuantityAgrees(s, op);
    case TakeSeats(_, rows, _, visitor, key, _, listedAt) =>
      TakeSeatsKeepsInv(s, op);
    case Finish(rid, _, want, now) =>
      SettleKeepsInv(s, {rid}, Outcome(s.reservations[rid], want, now));
    case ExpireBatch(rs, _) =>
      SettleKeepsInv(s, rs, Expired);
  }

  lemma RowsStillFit(s: Tables, rs: set<Id>, op: Op)
    requires op.TakeSeats? && op.rid !in s.reservations && RowsFit(s, op.rid, op.rows, op.eventId, op.expiresAt)
    ensures var s1 := Settle(s, rs, Expired);
            op.rid !in s1.reservations && RowsFit(s1, op.rid, op.rows, op.eventId, op.expiresAt)
  {
  }

  lemma InsertSeatsKeepsInv(s: Tables, op: Op)
    requires Inv(s) && op.TakeSeats? && op.rid !in s.reservations
             && RowsFit(s, op.rid, op.rows, op.eventId, op.expiresAt)
    requires !KeyTaken(s, op.visitor.sessionId, op.key)
    requires forall h, seat :: ActiveOn(s, h, seat) ==> seat !in SeatsOf(op.rows)
    ensures Inv(InsertSeats(s, op))
  {
    InsertSeatsReferences(s, op);
    InsertSeatsActiveUnique(s, op);
    NewKeyUnique(s, InsertSeats(s, op), op.rid, NewHeader(op.eventId, op.visitor, Seats, op.key, op.expiresAt));
    InsertSeatsAgrees(s, op);
  }

  lemma TakeSeatsKeepsInv(s: Tables, op: Op)
    requires Inv(s) && op.TakeSeats? && Legal(s, op)
    ensures Inv(InsertSeats(Settle(s, Leaving(s, op), Expired), op))
  {
    hide Inv, Settle, RowsFit, Bookable, KeyTaken, ActiveOn, SeatsOf;
    SettleKeepsInv(s, Leaving(s, op), Expired);
    SweepFrees(s, SeatsOf(op.rows), op.listedAt);
    KeyStaysFree(s, Leaving(s, op), op.visitor.sessionId, op.key);
    RowsStillFit(s, Leaving(s, op), op);
    InsertSeatsKeepsInv(Settle(s, Leaving(s, op), Expired), op);
  }

  lemma KeyStaysFree(s: Tables, rs: set<Id>, sessionId: Id, key: string)
    requires !KeyTaken(s, sessionId, key)
    ensures !KeyTaken(Settle(s, rs, Expired), sessionId, key)
  {
    var s1 := Settle(s, rs, Expired);
    forall r | r in s1.reservations
      ensures !(s1.reservations[r].sessionId == sessionId && s1.reservations[r].key == key)
    {
      assert r in s.reservations;
    }
  }

  lemma OverdueHoldersAreSeats(c: Tables, seats: set<Id>, listedAt: Time)
    requires Agrees(c)
    ensures forall r :: r in OverdueHolders(c, seats, listedAt) ==>
              r in c.reservations && c.reservations[r].kind == Seats
  {
    forall r | r in OverdueHolders(c, seats, listedAt) ensures r in c.reservations && c.reservations[r].kind == Seats {
      var h :| h in c.holds && c.holds[h].seatId in seats && c.holds[h].reservationId == r;
      assert HoldAgrees(c, c.holds[h]);
    }
  }
}
