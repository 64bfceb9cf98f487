/** The release and confirm loops: counters and items disagree while they run and agree again when they end. */
module StockLoops {
  import opened Schema
  import opened Ordering
  import opened Sums
  import opened Invariant
  import opened Settlement
  import opened Lifecycle
  import opened Queries

  /** The still-reserved items among the first n of a list. */
  ghost function MovedBy(items: map<Id, Item>, ids: seq<Id>, n: nat): set<Id>
    requires n <= |ids|
  {
    set i | i in ids[..n] && i in items && items[i].status == Reserved
  }

  lemma MovedNext(items: map<Id, Item>, ids: seq<Id>, n: nat)
    requires n < |ids| && ids[n] in items && Distinct(ids)
    ensures MovedBy(items, ids, n + 1)
            == MovedBy(items, ids, n) + if items[ids[n]].status == Reserved then {ids[n]} else {}
    ensures ids[n] !in MovedBy(items, ids, n)
  {
    assert ids[..n + 1] == ids[..n] + [ids[n]];
    forall j | 0 <= j < n ensures ids[..n][j] != ids[n] { assert ids[j] != ids[n]; }
  }

  lemma MovedAll(items: map<Id, Item>, rid: Id, ids: seq<Id>, n: nat)
    requires n <= |ids| && Listing(TypeOrder(items), ItemsOf(items, rid), ids)
    ensures MovedBy(items, ids, n) <= Owned(items, {rid})
    ensures n == |ids| ==> MovedBy(items, ids, n) == Owned(items, {rid})
  {
    forall i | i in ids[..n] ensures i in ItemsOf(items, rid) { assert i in ids; }
    if n == |ids| {
      assert ids[..n] == ids;
      forall i | i in Owned(items, {rid}) ensures i in ids { assert i in ItemsOf(items, rid); }
    }
  }

  /** One guarded counter UPDATE moves one more item. */
  lemma ShiftOneMore(s: Tables, moved: set<Id>, x: Id, target: Status)
    requires x in s.items && x !in moved && s.items[x].ticketTypeId in s.ticketTypes
    ensures var k := s.items[x].ticketTypeId;
            var types := ShiftedTypes(s, moved, target);
            types[k := Shift(types[k], s.items[x].quantity, target)] == ShiftedTypes(s, moved + {x}, target)
  {
    var k := s.items[x].ticketTypeId;
    var types := ShiftedTypes(s, moved, target);
    var a, b := types[k := Shift(types[k], s.items[x].quantity, target)], ShiftedTypes(s, moved + {x}, target);
    forall j | j in s.ticketTypes ensures a[j] == b[j] { QtyAdd(s.items, moved, x, j); }
  }

  /** The guard stops the loop at x only if the counter does not cover all the items together. */
  lemma GuardFails(s: Tables, moved: set<Id>, all: set<Id>, x: Id, target: Status)
    requires ChecksOk(s) && moved <= all && x in all && x !in moved && x in s.items
             && s.items[x].ticketTypeId in s.ticketTypes
    requires ShiftedTypes(s, moved, target)[s.items[x].ticketTypeId].reserved < s.items[x].quantity
    ensures !Covered(s, all)
  {
    var k := s.items[x].ticketTypeId;
    QtyAdd(s.items, moved, x, k);
    QtyMonotone(s.items, moved + {x}, all, k);
  }

  lemma GuardsHeld(s: Tables, all: set<Id>, target: Status)
    requires ChecksOk(s.(ticketTypes := ShiftedTypes(s, all, target)))
    ensures Covered(s, all)
  {
    var types := ShiftedTypes(s, all, target);
    forall k | k in s.ticketTypes ensures Qty(s.items, all, k) <= s.ticketTypes[k].reserved {
      assert CounterOk(types[k]);
    }
  }

  lemma NothingShifted(s: Tables, target: Status)
    ensures ShiftedTypes(s, {}, target) == s.ticketTypes
  {
    forall k | k in s.ticketTypes
      ensures ShiftedTypes(s, {}, target)[k] == s.ticketTypes[k] { QtyNone(s.items, {}, k); }
  }

  lemma StartLoop(s: Tables, rid: Id, ids: seq<Id>, target: Status)
    requires ids == OrderBy(ItemsOf(s.items, rid), TypeOrder(s.items))
    ensures Listing(TypeOrder(s.items), ItemsOf(s.items, rid), ids)
    ensures MovedBy(s.items, ids, 0) == {}
    ensures ShiftedTypes(s, MovedBy(s.items, ids, 0), target) == s.ticketTypes
  {
    assert MovedBy(s.items, ids, 0) == {};
    NothingShifted(s, target);
  }

  /** The loop meets a reserved item: its guard fails only in a state that cannot be released at all. */
  lemma MoveStep(s: Tables, rid: Id, ids: seq<Id>, n: nat, target: Status)
    requires Constraints(s) && Listing(TypeOrder(s.items), ItemsOf(s.items, rid), ids)
    requires n < |ids| && ids[n] in s.items && s.items[ids[n]].status == Reserved
    ensures var types, x := ShiftedTypes(s, MovedBy(s.items, ids, n), target), s.items[ids[n]];
            && 0 < x.quantity <= INT32_MAX
            && x.ticketTypeId in types
            && MovedBy(s.items, ids, n + 1) != {}
            && types[x.ticketTypeId := Shift(types[x.ticketTypeId], x.quantity, target)]
               == ShiftedTypes(s, MovedBy(s.items, ids, n + 1), target)
            && (types[x.ticketTypeId].reserved < x.quantity ==> !Releasable(s, rid))
  {
    hide Listing, ItemsOf;
    var moved, x := MovedBy(s.items, ids, n), ids[n];
    ListingDistinct(TypeOrder(s.items), ItemsOf(s.items, rid), ids);
    MovedNext(s.items, ids, n);
    MovedAll(s.items, rid, ids, n + 1);
    ShiftOneMore(s, moved, x, target);
    if ShiftedTypes(s, moved, target)[s.items[x].ticketTypeId].reserved < s.items[x].quantity {
      GuardFails(s, moved, Owned(s.items, {rid}), x, target);
    }
  }

  lemma SkipStep(s: Tables, rid: Id, ids: seq<Id>, n: nat)
    requires Listing(TypeOrder(s.items), ItemsOf(s.items, rid), ids)
    requires n < |ids| && ids[n] in s.items && s.items[ids[n]].status != Reserved
    ensures MovedBy(s.items, ids, n + 1) == MovedBy(s.items, ids, n)
  {
    ListingDistinct(TypeOrder(s.items), ItemsOf(s.items, rid), ids);
    MovedNext(s.items, ids, n);
  }

  lemma EndLoop(s: Tables, rid: Id, ids: seq<Id>, target: Status)
    requires Listing(TypeOrder(s.items), ItemsOf(s.items, rid), ids)
    requires Constraints(s.(ticketTypes := ShiftedTypes(s, MovedBy(s.items, ids, |ids|), target)))
    ensures MovedBy(s.items, ids, |ids|) == Owned(s.items, {rid})
    ensures Releasable(s, rid) <==> MovedBy(s.items, ids, |ids|) != {}
  {
    MovedAll(s.items, rid, ids, |ids|);
    GuardsHeld(s, Owned(s.items, {rid}), target);
  }

  /** releaseReservedQuantityItems. False is ErrReservationInvariantBroken; the caller rolls back. */
  method ReleaseReservedQuantityItems(db: Database, rid: Id, target: Status) returns (ok: bool)
    requires db.Valid() && (target == Cancelled || target == Expired)
    modifies db`ticketTypes, db`items
    ensures db.Valid()
    ensures ok <==> Releasable(old(db.Contents()), rid)
    ensures ok ==> db.Contents() == SettleItems(old(db.Contents()), rid, target)
  {
    hide Listing, MovedBy, ShiftedTypes, Releasable, Constraints, ItemsOf, MarkedItems, OrderBy, TypeOrder, Owned;
    ghost var s := db.Contents();
    ghost var ids := OrderBy(ItemsOf(s.items, rid), TypeOrder(s.items));
    var rows := db.ListReservationItems(rid);
    StartLoop(s, rid, ids, target);
    var releasedAny := false;
    var n := 0;
    while n < |rows|
      invariant 0 <= n <= |rows|
      invariant db.Valid()
      invariant db.ticketTypes == ShiftedTypes(s, MovedBy(s.items, ids, n), target) && db.items == s.items
      invariant releasedAny <==> MovedBy(s.items, ids, n) != {}
    {
      if rows[n].status == Reserved {
        MoveStep(s, rid, ids, n, target);
        var r := db.ReleaseTicketQuantity(rows[n].ticketTypeId, rows[n].quantity);
        if r.NoRows? { return false; }
        releasedAny := true;
      } else {
        SkipStep(s, rid, ids, n);
      }
      n := n + 1;
    }
    EndLoop(s, rid, ids, target);
    if |rows| == 0 || !releasedAny { return false; }
    db.UpdateReservationItemsStatus(rid, target);
    return true;
  }

  /** confirmReservedQuantityItems. False is ErrReservationInvariantBroken; the caller rolls back. */
  method ConfirmReservedQuantityItems(db: Database, rid: Id) returns (ok: bool)
    requires db.Valid()
    modifies db`ticketTypes, db`items
    ensures db.Valid()
    ensures ok <==> Releasable(old(db.Contents()), rid)
    ensures ok ==> db.Contents() == SettleItems(old(db.Contents()), rid, Confirmed)
  {
    hide Listing, MovedBy, ShiftedTypes, Releasable, Constraints, ItemsOf, MarkedItems, OrderBy, TypeOrder, Owned;
    ghost var s := db.Contents();
    ghost var ids := OrderBy(ItemsOf(s.items, rid), TypeOrder(s.items));
    var rows := db.ListReservationItems(rid);
    StartLoop(s, rid, ids, Confirmed);
    var confirmedAny := false;
    var n := 0;
    while n < |rows|
      invariant 0 <= n <= |rows|
      invariant db.Valid()
      invariant db.ticketTypes == ShiftedTypes(s, MovedBy(s.items, ids, n), Confirmed) && db.items == s.items
      invariant confirmedAny <==> MovedBy(s.items, ids, n) != {}
    {
      if rows[n].status == Reserved {
        MoveStep(s, rid, ids, n, Confirmed);
        var r := db.ConfirmTicketQuantity(rows[n].ticketTypeId, rows[n].quantity);
        if r.NoRows? { return false; }
        confirmedAny := true;
      } else {
        SkipStep(s, rid, ids, n);
      }
      n := n + 1;
    }
    EndLoop(s, rid, ids, Confirmed);
    if |rows| == 0 || !confirmedAny { return false; }
    db.UpdateReservationItemsStatus(rid, Confirmed);
    return true;
  }
}
