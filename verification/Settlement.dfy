/**
 Settling: taking reservations out of `reserved`. Every loop, bulk UPDATE and batch of the service that
 cancels, confirms or expires is proved equal to Settle, which says the outcome for a whole set at once.
 */
module Settlement {
  import opened Schema
  import opened Sums
  import opened Invariant

  /** The still-reserved items of the reservations rs. */
  ghost function Owned(items: map<Id, Item>, rs: set<Id>): set<Id> {
    set i | i in items && items[i].reservationId in rs && items[i].status == Reserved
  }

  /** The items of one reservation, and the order ListReservationItems gives them in. */
  function ItemsOf(items: map<Id, Item>, r: Id): set<Id> {
    set i | i in items && items[i].reservationId == r
  }

  function TypeOrder(items: map<Id, Item>): Id -> int {
    i => if i in items then items[i].ticketTypeId else 0
  }

  function MarkItem(item: Item, rs: set<Id>, target: Status): Item {
    if item.reservationId in rs && item.status == Reserved then item.(status := target) else item
  }

  function MarkHold(hold: Hold, rs: set<Id>, target: Status): Hold {
    if hold.reservationId in rs && hold.status == Reserved then hold.(status := target) else hold
  }

  function MarkHeader(header: Reservation, chosen: bool, target: Status): Reservation {
    if chosen && header.status == Reserved then header.(status := target) else header
  }

  /** `SET status = target WHERE reservation_id = ANY(rs) AND status = 'reserved'`, table by table. */
  function MarkedItems(items: map<Id, Item>, rs: set<Id>, target: Status): map<Id, Item> {
    map i | i in items :: MarkItem(items[i], rs, target)
  }

  function MarkedHolds(holds: map<Id, Hold>, rs: set<Id>, target: Status): map<Id, Hold> {
    map h | h in holds :: MarkHold(holds[h], rs, target)
  }

  function MarkedHeaders(headers: map<Id, Reservation>, rs: set<Id>, target: Status): map<Id, Reservation> {
    map r | r in headers :: MarkHeader(headers[r], r in rs, target)
  }

  /** Marking changes nothing but the status, and never makes a row active that was not. */
  lemma MarkedItemsShape(items: map<Id, Item>, rs: set<Id>, target: Status)
    ensures var marked := MarkedItems(items, rs, target);
            marked.Keys == items.Keys && forall i :: i in items ==> marked[i] == items[i].(status := marked[i].status)
  {
  }

  lemma MarkedHoldsShape(holds: map<Id, Hold>, rs: set<Id>, target: Status)
    ensures var marked := MarkedHolds(holds, rs, target);
            && marked.Keys == holds.Keys
            && forall h :: h in holds ==>
                 marked[h] == holds[h].(status := marked[h].status)
                 && (Active(marked[h].status) ==> Active(holds[h].status))
  {
  }

  /** q units leave `reserved`; a confirmation turns them into sales. */
  function Shift(t: TicketType, q: int, target: Status): TicketType {
    if q == 0 then t
    else if target == Confirmed then t.(reserved := t.reserved - q, sold := t.sold + q)
    else t.(reserved := t.reserved - q)
  }

  /** The quantity of the moved items that comes off counter k. */
  ghost function Moved(s: Tables, moved: set<Id>, k: Id): int {
    if k in s.ticketTypes then Qty(s.items, moved, k) else 0
  }

  ghost function ShiftedTypes(s: Tables, moved: set<Id>, target: Status): map<Id, TicketType> {
    map k | k in s.ticketTypes :: Shift(s.ticketTypes[k], Moved(s, moved, k), target)
  }

  ghost function Settle(s: Tables, rs: set<Id>, target: Status): Tables {
    s.(ticketTypes := ShiftedTypes(s, Owned(s.items, rs), target),
       items := MarkedItems(s.items, rs, target),
       holds := MarkedHolds(s.holds, rs, target),
       reservations := MarkedHeaders(s.reservations, rs, target))
  }

  /** The guard `reserved_quantity >= quantity` can hold at every step of a release of these items. */
  ghost predicate Covered(s: Tables, moved: set<Id>) {
    forall k :: k in s.ticketTypes ==> Qty(s.items, moved, k) <= s.ticketTypes[k].reserved
  }

  lemma OwnedCovered(s: Tables, rs: set<Id>)
    requires ChecksOk(s) && Conserved(s)
    ensures Covered(s, Owned(s.items, rs))
  {
    forall k | k in s.ticketTypes ensures Qty(s.items, Owned(s.items, rs), k) <= s.ticketTypes[k].reserved {
      QtyMonotone(s.items, Owned(s.items, rs), WithStatus(s.items, Reserved), k);
    }
  }

  lemma SettleKeepsChecks(s: Tables, rs: set<Id>, target: Status)
    requires ChecksOk(s) && Conserved(s)
    ensures ChecksOk(Settle(s, rs, target))
  {
    var moved := Owned(s.items, rs);
    OwnedCovered(s, rs);
    forall k | k in s.ticketTypes ensures CounterOk(Shift(s.ticketTypes[k], Qty(s.items, moved, k), target)) {
      QtyMonotone(s.items, {}, moved, k);
      QtyNone(s.items, {}, k);
    }
  }

  lemma SettleKeepsReferences(s: Tables, rs: set<Id>, target: Status)
    requires ReferencesOk(s)
    ensures ReferencesOk(Settle(s, rs, target))
  {
    var s' := Settle(s, rs, target);
    forall k | k in s'.ticketTypes ensures s'.ticketTypes[k].eventId in s'.events {
      assert k in s.ticketTypes;
    }
    forall r | r in s'.reservations ensures s'.reservations[r].eventId in s'.events {
      assert r in s.reservations;
    }
    ChildReferences(s.items, s.holds, s.reservations, rs, target);
  }

  lemma ChildReferences(items: map<Id, Item>, holds: map<Id, Hold>, headers: map<Id, Reservation>, rs: set<Id>,
                        target: Status)
    ensures forall i :: i in items ==>
      MarkItem(items[i], rs, target).reservationId == items[i].reservationId &&
      MarkItem(items[i], rs, target).ticketTypeId == items[i].ticketTypeId
    ensures forall h :: h in holds ==>
      MarkHold(holds[h], rs, target).reservationId == holds[h].reservationId &&
      MarkHold(holds[h], rs, target).seatId == holds[h].seatId
  {
  }

  lemma SettleKeepsUniqueness(s: Tables, rs: set<Id>, target: Status)
    requires KeysUnique(s) && ActiveUnique(s)
    ensures KeysUnique(Settle(s, rs, target)) && ActiveUnique(Settle(s, rs, target))
  {
    var s' := Settle(s, rs, target);
    forall a, b | a in s'.reservations && b in s'.reservations && SameKey(s'.reservations[a], s'.reservations[b])
      ensures a == b
    {
      assert SameKey(s.reservations[a], s.reservations[b]);
    }
    forall g, h, seat | ActiveOn(s', g, seat) && ActiveOn(s', h, seat) ensures g == h {
      assert ActiveOn(s, g, seat) && ActiveOn(s, h, seat);
    }
  }

  /** The items that leave `reserved` are exactly the quantity that leaves the counter. */
  lemma SettleKeepsConservation(s: Tables, rs: set<Id>, target: Status)
    requires Conserved(s) && target != Reserved
    ensures Conserved(Settle(s, rs, target))
  {
    var s' := Settle(s, rs, target);
    var moved := Owned(s.items, rs);
    forall k | k in s'.ticketTypes
      ensures s'.ticketTypes[k].reserved == Qty(s'.items, WithStatus(s'.items, Reserved), k)
      ensures s'.ticketTypes[k].sold == Qty(s'.items, WithStatus(s'.items, Confirmed), k)
    {
      var before, after := WithStatus(s.items, Reserved), WithStatus(s'.items, Reserved);
      assert before == after + moved && after !! moved;
      QtyUnion(s.items, after, moved, k);
      QtySame(s.items, s'.items, after, k);
      var sold, sold' := WithStatus(s.items, Confirmed), WithStatus(s'.items, Confirmed);
      QtySame(s.items, s'.items, sold', k);
      if target == Confirmed {
        assert sold' == sold + moved && sold !! moved;
        QtyUnion(s.items, sold, moved, k);
      } else {
        assert sold' == sold;
      }
    }
  }

  lemma SettleKeepsItems(s: Tables, rs: set<Id>, target: Status, i: Id)
    requires i in s.items && ItemAgrees(s, s.items[i])
    ensures ItemAgrees(Settle(s, rs, target), MarkItem(s.items[i], rs, target))
  {
  }

  lemma SettleKeepsHolds(s: Tables, rs: set<Id>, target: Status, h: Id)
    requires h in s.holds && HoldAgrees(s, s.holds[h])
    ensures HoldAgrees(Settle(s, rs, target), MarkHold(s.holds[h], rs, target))
  {
  }

  lemma SettleKeepsChildren(s: Tables, rs: set<Id>, target: Status, r: Id)
    ensures HasItem(s, r) ==> HasItem(Settle(s, rs, target), r)
    ensures HasHold(s, r) ==> HasHold(Settle(s, rs, target), r)
  {
    var s' := Settle(s, rs, target);
    if HasItem(s, r) {
      var i :| i in s.items && s.items[i].reservationId == r;
      assert i in s'.items && s'.items[i].reservationId == r;
    }
    if HasHold(s, r) {
      var h :| h in s.holds && s.holds[h].reservationId == r;
      assert h in s'.holds && s'.holds[h].reservationId == r;
    }
  }

  lemma SettleKeepsAgreement(s: Tables, rs: set<Id>, target: Status)
    requires Agrees(s)
    ensures Agrees(Settle(s, rs, target))
  {
    var s' := Settle(s, rs, target);
    forall i | i in s'.items ensures ItemAgrees(s', s'.items[i]) { SettleKeepsItems(s, rs, target, i); }
    forall h | h in s'.holds ensures HoldAgrees(s', s'.holds[h]) { SettleKeepsHolds(s, rs, target, h); }
    forall r | r in s'.reservations
      ensures if s'.reservations[r].kind == Quantity then HasItem(s', r) else HasHold(s', r)
    {
      SettleKeepsChildren(s, rs, target, r);
    }
  }

  lemma SettleKeepsInv(s: Tables, rs: set<Id>, target: Status)
    requires Inv(s) && target != Reserved
    ensures Inv(Settle(s, rs, target))
  {
    SettleKeepsChecks(s, rs, target);
    SettleKeepsReferences(s, rs, target);
    SettleKeepsUniqueness(s, rs, target);
    SettleKeepsConservation(s, rs, target);
    SettleKeepsAgreement(s, rs, target);
  }

  lemma MarkNothing(s: Tables, rs: set<Id>, target: Status)
    requires forall i :: i in s.items && s.items[i].reservationId in rs ==> s.items[i].status != Reserved
    requires forall h :: h in s.holds && s.holds[h].reservationId in rs ==> s.holds[h].status != Reserved
    requires forall r :: r in rs && r in s.reservations ==> s.reservations[r].status != Reserved
    ensures Settle(s, rs, target) == s
  {
    assert Owned(s.items, rs) == {};
    var t := ShiftedTypes(s, Owned(s.items, rs), target);
    forall k | k in s.ticketTypes ensures t[k] == s.ticketTypes[k] {
      QtyNone(s.items, {}, k);
    }
    assert MarkedItems(s.items, rs, target) == s.items;
    assert MarkedHolds(s.holds, rs, target) == s.holds;
    assert MarkedHeaders(s.reservations, rs, target) == s.reservations;
  }

  /** Settling only what has left `reserved` already changes nothing. */
  lemma SettleNothing(s: Tables, rs: set<Id>, target: Status)
    requires Agrees(s)
    requires forall r :: r in rs && r in s.reservations ==> s.reservations[r].status != Reserved
    ensures Settle(s, rs, target) == s
  {
    forall i | i in s.items && s.items[i].reservationId in rs ensures s.items[i].status != Reserved {
      assert ItemAgrees(s, s.items[i]);
    }
    forall h | h in s.holds && s.holds[h].reservationId in rs ensures s.holds[h].status != Reserved {
      assert HoldAgrees(s, s.holds[h]);
    }
    MarkNothing(s, rs, target);
  }

  lemma MarkTwice(s: Tables, a: set<Id>, b: set<Id>, target: Status)
    requires target != Reserved
    ensures MarkedItems(MarkedItems(s.items, a, target), b, target) == MarkedItems(s.items, a + b, target)
    ensures MarkedHolds(MarkedHolds(s.holds, a, target), b, target) == MarkedHolds(s.holds, a + b, target)
    ensures MarkedHeaders(MarkedHeaders(s.reservations, a, target), b, target)
            == MarkedHeaders(s.reservations, a + b, target)
  {
  }

  lemma OwnedSplit(items: map<Id, Item>, a: set<Id>, b: set<Id>, target: Status)
    requires target != Reserved
    ensures Owned(items, a + b) == Owned(items, a) + Owned(MarkedItems(items, a, target), b)
    ensures Owned(items, a) !! Owned(MarkedItems(items, a, target), b)
  {
  }

  lemma ShiftTwice(s: Tables, a: set<Id>, b: set<Id>, target: Status)
    requires target != Reserved
    ensures var s1 := Settle(s, a, target);
            ShiftedTypes(s1, Owned(s1.items, b), target) == ShiftedTypes(s, Owned(s.items, a + b), target)
  {
    hide Qty, Owned, MarkedItems, MarkedHolds, MarkedHeaders;
    var s1 := Settle(s, a, target);
    var once, twice := ShiftedTypes(s, Owned(s.items, a + b), target), ShiftedTypes(s1, Owned(s1.items, b), target);
    forall k | k in s.ticketTypes ensures twice[k] == once[k] { QtySplit(s.items, a, b, target, k); }
  }

  lemma QtySplit(items: map<Id, Item>, a: set<Id>, b: set<Id>, target: Status, k: Id)
    requires target != Reserved
    ensures var items1 := MarkedItems(items, a, target);
            Qty(items, Owned(items, a + b), k) == Qty(items, Owned(items, a), k) + Qty(items1, Owned(items1, b), k)
  {
    var items1 := MarkedItems(items, a, target);
    OwnedSplit(items, a, b, target);
    QtyUnion(items, Owned(items, a), Owned(items1, b), k);
    QtySame(items, items1, Owned(items1, b), k);
  }

  /** Settling in two goes is settling once. */
  lemma SettleTwice(s: Tables, a: set<Id>, b: set<Id>, target: Status)
    requires target != Reserved
    ensures Settle(Settle(s, a, target), b, target) == Settle(s, a + b, target)
  {
    MarkTwice(s, a, b, target);
    ShiftTwice(s, a, b, target);
  }

  /** Reservations without items move no stock. */
  lemma NoItemsToMove(s: Tables, rs: set<Id>, target: Status)
    requires forall i :: i in s.items ==> s.items[i].reservationId !in rs
    ensures ShiftedTypes(s, Owned(s.items, rs), target) == s.ticketTypes
    ensures MarkedItems(s.items, rs, target) == s.items
  {
    assert Owned(s.items, rs) == {};
    forall k | k in s.ticketTypes
      ensures Shift(s.ticketTypes[k], Qty(s.items, {}, k), target) == s.ticketTypes[k] { QtyNone(s.items, {}, k); }
  }

  /** A sweep of seat reservations is a settlement: there are no items to release. */
  lemma SweepSettles(c: Tables, rs: set<Id>)
    requires Agrees(c) && forall r :: r in rs && r in c.reservations ==> c.reservations[r].kind == Seats
    ensures Settle(c, rs, Expired)
         == c.(holds := MarkedHolds(c.holds, rs, Expired), reservations := MarkedHeaders(c.reservations, rs, Expired))
  {
    hide ShiftedTypes, MarkedItems, MarkedHolds, MarkedHeaders, Owned;
    forall i | i in c.items ensures c.items[i].reservationId !in rs { assert ItemAgrees(c, c.items[i]); }
    NoItemsToMove(c, rs, Expired);
  }
}
