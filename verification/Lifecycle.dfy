/**
 Cancel, confirm and expire: what one settlement does to the tables whatever state they are in, and what that
 means in the states the service can reach. Modules StockLoops and Service run the code against these.
 */
module Lifecycle {
  import opened Schema
  import opened Ordering
  import opened Sums
  import opened Invariant
  import opened Settlement
  import opened Serial
  import opened Queries

  datatype ServiceError =
    | InvalidQuantityReservation
    | InvalidSeatReservation
    | InsufficientStock
    | SeatsNotFound
    | SeatUnavailable
    | IdempotencyKeyConflict
    | ReservationNotFound
    | ReservationCannotCancel
    | ReservationCannotConfirm
    | ReservationInvariantBroken
    | DatabaseError

  /** Done: committed. Refused: committed too, but answered with an error. Failed: rolled back. */
  datatype Reply<+T> = Done(response: T) | Refused(response: T, error: ServiceError) | Failed(error: ServiceError)

  datatype ItemDetail = ItemDetail(ticketTypeId: Id, quantity: int, status: Status)

  datatype SeatDetail = SeatDetail(seatId: Id, status: Status)

  datatype ReservationResponse = ReservationResponse(
    reservationId: Id, status: Status, kind: Kind, expiresAt: Time, items: seq<ItemDetail>, seats: seq<SeatDetail>)

  function ItemDetails(items: map<Id, Item>, ids: seq<Id>): seq<ItemDetail>
    requires forall i :: i in ids ==> i in items
  {
    if ids == [] then []
    else
      var last := ids[|ids| - 1];
      ItemDetails(items, ids[..|ids| - 1])
        + [ItemDetail(items[last].ticketTypeId, items[last].quantity, items[last].status)]
  }

  function SeatDetails(holds: map<Id, Hold>, ids: seq<Id>): seq<SeatDetail>
    requires forall h :: h in ids ==> h in holds
  {
    if ids == [] then []
    else
      var last := ids[|ids| - 1];
      SeatDetails(holds, ids[..|ids| - 1]) + [SeatDetail(holds[last].seatId, holds[last].status)]
  }

  /** What a client is told about a reservation. */
  function ResponseOf(s: Tables, rid: Id): ReservationResponse
    requires rid in s.reservations
  {
    var header := s.reservations[rid];
    var items :=
      if header.kind == Quantity then ItemDetails(s.items, OrderBy(ItemsOf(s.items, rid), TypeOrder(s.items))) else [];
    var seats :=
      if header.kind == Seats then SeatDetails(s.holds, OrderBy(HoldsOf(s.holds, rid), SeatOrder(s.holds))) else [];
    ReservationResponse(rid, header.status, header.kind, header.expiresAt, items, seats)
  }

  lemma {:induction false} ItemDetailAt(items: map<Id, Item>, ids: seq<Id>, j: nat)
    requires (forall i :: i in ids ==> i in items) && j < |ids|
    ensures |ItemDetails(items, ids)| == |ids|
    ensures ItemDetails(items, ids)[j]
            == ItemDetail(items[ids[j]].ticketTypeId, items[ids[j]].quantity, items[ids[j]].status)
  {
    if |ids| > 1 { ItemDetailAt(items, ids[..|ids| - 1], if j < |ids| - 1 then j else 0); }
  }

  lemma {:induction false} SeatDetailAt(holds: map<Id, Hold>, ids: seq<Id>, j: nat)
    requires (forall h :: h in ids ==> h in holds) && j < |ids|
    ensures |SeatDetails(holds, ids)| == |ids|
    ensures SeatDetails(holds, ids)[j] == SeatDetail(holds[ids[j]].seatId, holds[ids[j]].status)
  {
    if |ids| > 1 { SeatDetailAt(holds, ids[..|ids| - 1], if j < |ids| - 1 then j else 0); }
  }

  /** details lists the items of the reservation, each once, by ticket type and id, as they are stored. */
  ghost predicate ItemsDescribed(s: Tables, rid: Id, ids: seq<Id>, details: seq<ItemDetail>) {
    && ItemsInOrder(s.items, rid, ids) && |details| == |ids|
    && forall j :: 0 <= j < |ids| ==>
         && ids[j] in s.items && details[j].ticketTypeId == s.items[ids[j]].ticketTypeId
         && details[j].quantity == s.items[ids[j]].quantity && details[j].status == s.items[ids[j]].status
  }

  ghost predicate SeatsDescribed(s: Tables, rid: Id, ids: seq<Id>, details: seq<SeatDetail>) {
    && HoldsInOrder(s.holds, rid, ids) && |details| == |ids|
    && forall j :: 0 <= j < |ids| ==>
         ids[j] in s.holds && details[j].seatId == s.holds[ids[j]].seatId && details[j].status == s.holds[ids[j]].status
  }

  /** In any state: the response repeats the header, and lists every child row of the header's kind, in order. */
  lemma ResponseLists(s: Tables, rid: Id) returns (ids: seq<Id>)
    requires rid in s.reservations
    ensures var r, header := ResponseOf(s, rid), s.reservations[rid];
            && r.reservationId == rid && r.status == header.status && r.kind == header.kind
            && r.expiresAt == header.expiresAt
            && (header.kind == Quantity ==> ItemsDescribed(s, rid, ids, r.items) && r.seats == [])
            && (header.kind == Seats ==> SeatsDescribed(s, rid, ids, r.seats) && r.items == [])
  {
    hide OrderBy, Listing;
    if s.reservations[rid].kind == Quantity {
      ids := OrderBy(ItemsOf(s.items, rid), TypeOrder(s.items));
      ItemsListed(s.items, rid);
      forall j | 0 <= j < |ids|
        ensures |ItemDetails(s.items, ids)| == |ids| && ids[j] in s.items
                && ItemDetails(s.items, ids)[j]
                   == ItemDetail(s.items[ids[j]].ticketTypeId, s.items[ids[j]].quantity, s.items[ids[j]].status)
      {
        ItemDetailAt(s.items, ids, j);
        assert ids[j] in ids;
      }
    } else {
      ids := OrderBy(HoldsOf(s.holds, rid), SeatOrder(s.holds));
      HoldsListed(s.holds, rid);
      forall j | 0 <= j < |ids|
        ensures |SeatDetails(s.holds, ids)| == |ids| && ids[j] in s.holds
                && SeatDetails(s.holds, ids)[j] == SeatDetail(s.holds[ids[j]].seatId, s.holds[ids[j]].status)
      {
        SeatDetailAt(s.holds, ids, j);
        assert ids[j] in ids;
      }
    }
  }

  /**
   In a reachable state a response is coherent: it lists at least one child of the header's kind, and every one it
   lists is in the header's status.
   */
  lemma ResponseCoherent(s: Tables, rid: Id)
    requires Inv(s) && rid in s.reservations
    ensures var r := ResponseOf(s, rid);
            && (r.kind == Quantity ==> r.items != [] && r.seats == [])
            && (r.kind == Seats ==> r.seats != [] && r.items == [])
            && (forall j :: 0 <= j < |r.items| ==> r.items[j].status == r.status)
            && (forall j :: 0 <= j < |r.seats| ==> r.seats[j].status == r.status)
  {
    hide ResponseOf;
    var r := ResponseOf(s, rid);
    var ids := ResponseLists(s, rid);
    if r.kind == Quantity {
      var i :| i in s.items && s.items[i].reservationId == rid;
      assert i in ids;
      forall j | 0 <= j < |r.items| ensures r.items[j].status == r.status {
        assert ids[j] in ids;
        assert ItemAgrees(s, s.items[ids[j]]);
      }
    } else {
      var h :| h in s.holds && s.holds[h].reservationId == rid;
      assert h in ids;
      forall j | 0 <= j < |r.seats| ensures r.seats[j].status == r.status {
        assert ids[j] in ids;
        assert HoldAgrees(s, s.holds[ids[j]]);
      }
    }
  }

  // ---------- one settlement, in any state the constraints allow ----------

  /** Some item is still reserved, and the counters cover the quantities of all that are. */
  ghost predicate Releasable(s: Tables, rid: Id) {
    Owned(s.items, {rid}) != {} && Covered(s, Owned(s.items, {rid}))
  }

  ghost function ReservedItems(s: Tables, rid: Id): set<Id> {
    set i | i in s.items && s.items[i].reservationId == rid && s.items[i].status == Reserved
  }

  /** In the stored fields: an item is reserved, and each counter is at least the quantity of those on it. */
  lemma ReleasableMeans(s: Tables, rid: Id)
    ensures Releasable(s, rid) <==>
              && (exists i :: i in ReservedItems(s, rid))
              && forall k :: k in s.ticketTypes ==> Qty(s.items, ReservedItems(s, rid), k) <= s.ticketTypes[k].reserved
  {
    assert Owned(s.items, {rid}) == ReservedItems(s, rid);
  }

  ghost predicate Settleable(s: Tables, rid: Id) {
    rid in s.reservations && (s.reservations[rid].kind == Quantity ==> Releasable(s, rid))
  }

  ghost function SettleItems(s: Tables, rid: Id, target: Status): Tables {
    s.(ticketTypes := ShiftedTypes(s, Owned(s.items, {rid}), target), items := MarkedItems(s.items, {rid}, target))
  }

  /** Only the child table the header's type names is touched. */
  ghost function SettleChildren(s: Tables, rid: Id, target: Status): Tables
    requires rid in s.reservations
  {
    if s.reservations[rid].kind == Quantity then SettleItems(s, rid, target)
    else s.(holds := MarkedHolds(s.holds, {rid}, target))
  }

  ghost function SettleOne(s: Tables, rid: Id, target: Status): Tables
    requires rid in s.reservations
  {
    SettleChildren(s, rid, target).(reservations := s.reservations[rid := s.reservations[rid].(status := target)])
  }

  lemma MarkOneHeader(headers: map<Id, Reservation>, rid: Id, target: Status)
    requires rid in headers && headers[rid].status == Reserved
    ensures headers[rid := headers[rid].(status := target)] == MarkedHeaders(headers, {rid}, target)
  {
  }

  lemma NoHoldsOf(s: Tables, rid: Id, target: Status)
    requires Agrees(s) && rid in s.reservations && s.reservations[rid].kind == Quantity
    ensures MarkedHolds(s.holds, {rid}, target) == s.holds
  {
    forall h | h in s.holds ensures s.holds[h].reservationId != rid { assert HoldAgrees(s, s.holds[h]); }
  }

  lemma NoItemsOf(s: Tables, rid: Id, target: Status)
    requires Agrees(s) && rid in s.reservations && s.reservations[rid].kind == Seats
    ensures SettleItems(s, rid, target) == s
  {
    hide ShiftedTypes, MarkedItems, Owned;
    forall i | i in s.items ensures s.items[i].reservationId !in {rid} { assert ItemAgrees(s, s.items[i]); }
    NoItemsToMove(s, {rid}, target);
  }

  /** In a reachable state the one-reservation code has the effect of the set-based settlement. */
  lemma SettleOneSettles(s: Tables, rid: Id, target: Status)
    requires Agrees(s) && rid in s.reservations && s.reservations[rid].status == Reserved
    ensures SettleOne(s, rid, target) == Settle(s, {rid}, target)
  {
    hide Agrees, MarkedHeaders, MarkedHolds, MarkedItems, ShiftedTypes, Owned;
    MarkOneHeader(s.reservations, rid, target);
    if s.reservations[rid].kind == Quantity { NoHoldsOf(s, rid, target); } else { NoItemsOf(s, rid, target); }
  }

  /** In a reachable state no reserved reservation fails the stock guard, however many items share a ticket type. */
  lemma NeverBroken(s: Tables, rid: Id)
    requires Inv(s) && rid in s.reservations && s.reservations[rid].status == Reserved
    ensures Settleable(s, rid)
  {
    if s.reservations[rid].kind == Quantity {
      var i :| i in s.items && s.items[i].reservationId == rid;
      assert ItemAgrees(s, s.items[i]);
      assert i in Owned(s.items, {rid});
      OwnedCovered(s, {rid});
    }
  }

  // ---------- what a settlement touches, table by table ----------

  ghost predicate AllReserved(s: Tables, ids: seq<Id>) {
    forall r :: r in ids ==> r in s.reservations && s.reservations[r].status == Reserved
  }

  /** The rows of each table, when exactly these reservations become target with all their items and holds. */
  ghost predicate HeadersBecome(s: Tables, s': Tables, ids: seq<Id>, target: Status) {
    && s'.reservations.Keys == s.reservations.Keys
    && (forall r :: r in s.reservations ==>
          s'.reservations[r] == if r in ids then s.reservations[r].(status := target) else s.reservations[r])
  }

  ghost predicate ItemsBecome(s: Tables, s': Tables, ids: seq<Id>, target: Status) {
    && s'.items.Keys == s.items.Keys
    && (forall i :: i in s.items ==>
          s'.items[i] == if s.items[i].reservationId in ids then s.items[i].(status := target) else s.items[i])
  }

  ghost predicate HoldsBecome(s: Tables, s': Tables, ids: seq<Id>, target: Status) {
    && s'.holds.Keys == s.holds.Keys
    && (forall h :: h in s.holds ==>
          s'.holds[h] == if s.holds[h].reservationId in ids then s.holds[h].(status := target) else s.holds[h])
  }

  ghost function ItemsUnder(s: Tables, ids: seq<Id>): set<Id> {
    set i | i in s.items && s.items[i].reservationId in ids
  }

  /** Their items' quantities leave the reserved counters, and go to the sold ones when they are confirmed. */
  ghost predicate CountersMove(s: Tables, s': Tables, ids: seq<Id>, target: Status) {
    && s'.ticketTypes.Keys == s.ticketTypes.Keys
    && (forall k :: k in s.ticketTypes ==>
          var t, n := s.ticketTypes[k], Qty(s.items, ItemsUnder(s, ids), k);
          s'.ticketTypes[k]
          == t.(reserved := t.reserved - n, sold := if target == Confirmed then t.sold + n else t.sold))
  }

  /** These reservations become target, and everything else is as before: no row comes or goes. */
  ghost predicate OnlySettles(s: Tables, s': Tables, ids: seq<Id>, target: Status) {
    && s'.events == s.events && s'.seats == s.seats
    && HeadersBecome(s, s', ids, target) && ItemsBecome(s, s', ids, target) && HoldsBecome(s, s', ids, target)
    && CountersMove(s, s', ids, target)
  }

  lemma CountersTouched(s: Tables, ids: seq<Id>, target: Status)
    requires forall i :: i in s.items && s.items[i].reservationId in ids ==> s.items[i].status == Reserved
    ensures CountersMove(s, Settle(s, ToSet(ids), target), ids, target)
  {
    hide MarkedItems, MarkedHolds, MarkedHeaders, Qty;
    assert Owned(s.items, ToSet(ids)) == ItemsUnder(s, ids);
  }

  lemma HeadersTouched(s: Tables, ids: seq<Id>, target: Status)
    requires AllReserved(s, ids)
    ensures HeadersBecome(s, Settle(s, ToSet(ids), target), ids, target)
  {
    hide MarkedItems, MarkedHolds, ShiftedTypes;
  }

  lemma ChildrenTouched(s: Tables, ids: seq<Id>, target: Status)
    requires forall i :: i in s.items && s.items[i].reservationId in ids ==> s.items[i].status == Reserved
    requires forall h :: h in s.holds && s.holds[h].reservationId in ids ==> s.holds[h].status == Reserved
    ensures ItemsBecome(s, Settle(s, ToSet(ids), target), ids, target)
    ensures HoldsBecome(s, Settle(s, ToSet(ids), target), ids, target)
  {
    hide MarkedHeaders, ShiftedTypes;
  }

  lemma ChildrenReserved(s: Tables, ids: seq<Id>)
    requires Agrees(s) && AllReserved(s, ids)
    ensures forall i :: i in s.items && s.items[i].reservationId in ids ==> s.items[i].status == Reserved
    ensures forall h :: h in s.holds && s.holds[h].reservationId in ids ==> s.holds[h].status == Reserved
  {
    forall i | i in s.items && s.items[i].reservationId in ids ensures s.items[i].status == Reserved {
      assert ItemAgrees(s, s.items[i]);
    }
    forall h | h in s.holds && s.holds[h].reservationId in ids ensures s.holds[h].status == Reserved {
      assert HoldAgrees(s, s.holds[h]);
    }
  }

  /** In a reachable state, settling reserved reservations touches their rows and counters and nothing else. */
  lemma SettleTouches(s: Tables, ids: seq<Id>, target: Status)
    requires Agrees(s) && AllReserved(s, ids)
    ensures OnlySettles(s, Settle(s, ToSet(ids), target), ids, target)
  {
    hide HeadersBecome, ItemsBecome, HoldsBecome, CountersMove, ShiftedTypes, MarkedItems, MarkedHolds, MarkedHeaders;
    ChildrenReserved(s, ids);
    CountersTouched(s, ids, target);
    HeadersTouched(s, ids, target);
    ChildrenTouched(s, ids, target);
  }

  // ---------- cancel and confirm ----------

  function Cannot(want: Status): ServiceError {
    if want == Cancelled then ReservationCannotCancel else ReservationCannotConfirm
  }

  /** How CancelReservation (want == Cancelled) and ConfirmReservation (want == Confirmed) take s to s'. */
  ghost predicate Finishes(s: Tables, s': Tables, rid: Id, visitor: Visitor, want: Status, now: Time,
                           reply: Reply<ReservationResponse>) {
    if rid !in s.reservations || !CanAccess(s.reservations[rid], visitor) then
      s' == s && reply == Failed(ReservationNotFound)
    else
      var header := s.reservations[rid];
      if header.status == want then s' == s && reply == Done(ResponseOf(s, rid))
      else if header.status != Reserved then s' == s && reply == Refused(ResponseOf(s, rid), Cannot(want))
      else if !Settleable(s, rid) then s' == s && reply == Failed(ReservationInvariantBroken)
      else
        && s' == SettleOne(s, rid, Outcome(header, want, now))
        && reply == if Overdue(header, now) then Refused(ResponseOf(s', rid), Cannot(want))
           else Done(ResponseOf(s', rid))
  }

  lemma SettledStatus(s: Tables, rid: Id, target: Status)
    requires rid in s.reservations && s.reservations[rid].status == Reserved
    ensures var s' := Settle(s, {rid}, target); rid in s'.reservations && s'.reservations[rid].status == target
  {
  }

  /**
   From a reachable state. Not found exactly for a stranger; a reservation that has left `reserved` stays as it is;
   a reserved one becomes what was asked for, or expired from the deadline on, with its rows and counters and
   nothing else. The answer is the new state, and an error says that it is not what was asked for. The invariant
   error is never met, and the change is one legal serial operation.
   */
  lemma FinishMeaning(s: Tables, s': Tables, rid: Id, visitor: Visitor, want: Status, now: Time,
                      reply: Reply<ReservationResponse>)
    requires Inv(s) && (want == Cancelled || want == Confirmed) && Finishes(s, s', rid, visitor, want, now, reply)
    ensures Inv(s')
    ensures var op := Finish(rid, visitor, want, now); s' == if Legal(s, op) then Apply(s, op) else s
    ensures reply == Failed(ReservationNotFound) <==>
              || rid !in s.reservations
              || (s.reservations[rid].sessionId != visitor.sessionId
                  && (visitor.userId == None || s.reservations[rid].userId != visitor.userId))
    ensures reply.Failed? ==> reply.error == ReservationNotFound && s' == s
    ensures !reply.Failed? ==>
              && var header := s.reservations[rid];
              && (if header.status != Reserved then s' == s
                  else OnlySettles(s, s', [rid], if header.expiresAt <= now then Expired else want))
              && reply.response == ResponseOf(s', rid)
              && (reply.Done? <==> s'.reservations[rid].status == want)
    ensures reply.Refused? ==>
              reply.error == if want == Cancelled then ReservationCannotCancel else ReservationCannotConfirm
  {
    hide Settleable, SettleOne, Constraints, Conserved, Agrees, ResponseOf, OnlySettles;
    if rid in s.reservations && s.reservations[rid].status == Reserved && CanAccess(s.reservations[rid], visitor) {
      NeverBroken(s, rid);
      var target := Outcome(s.reservations[rid], want, now);
      SettleOneSettles(s, rid, target);
      SettleKeepsInv(s, {rid}, target);
      SettledStatus(s, rid, target);
      assert ToSet([rid]) == {rid};
      SettleTouches(s, [rid], target);
    }
  }

  /** Idempotent: a repeated call, at any later clock reading, changes nothing and repeats the answer. */
  lemma FinishTwice(s: Tables, s': Tables, s'': Tables, rid: Id, visitor: Visitor, want: Status, now: Time, later: Time,
                    first: Reply<ReservationResponse>, second: Reply<ReservationResponse>)
    requires Inv(s) && (want == Cancelled || want == Confirmed)
    requires Finishes(s, s', rid, visitor, want, now, first) && Finishes(s', s'', rid, visitor, want, later, second)
    ensures s'' == s' && second == first
  {
    FinishMeaning(s, s', rid, visitor, want, now, first);
  }

  // ---------- expiring one by one ----------

  /** expireLockedReservation over a list, in the order of the list. */
  ghost function ExpireEach(s: Tables, ids: seq<Id>): Tables {
    if ids == [] then s
    else
      var before, r := ExpireEach(s, ids[..|ids| - 1]), ids[|ids| - 1];
      if r in before.reservations then SettleOne(before, r, Expired) else before
  }

  lemma ExpireOneMore(s: Tables, rs: set<Id>, r: Id)
    requires Inv(s) && r in s.reservations && s.reservations[r].status == Reserved && r !in rs
    ensures var before := Settle(s, rs, Expired);
            Settleable(before, r) && SettleOne(before, r, Expired) == Settle(s, rs + {r}, Expired)
  {
    hide Settleable, SettleOne;
    var before := Settle(s, rs, Expired);
    SettleKeepsInv(s, rs, Expired);
    NeverBroken(before, r);
    SettleOneSettles(before, r, Expired);
    SettleTwice(s, rs, {r}, Expired);
  }

  lemma ExpireNone(s: Tables)
    ensures Settle(s, {}, Expired) == s
  {
    MarkNothing(s, {}, Expired);
  }

  /**
   In a reachable state a list of reserved reservations can be expired in any order, with the effect of
   expiring the set.
   */
  lemma {:induction false} ExpireEachSettles(s: Tables, ids: seq<Id>)
    requires Inv(s) && Distinct(ids) && AllReserved(s, ids)
    ensures ExpireEach(s, ids) == Settle(s, ToSet(ids), Expired)
  {
    hide Settleable, SettleOne, Inv, Settle;
    if ids == [] {
      ExpireNone(s);
      assert ToSet(ids) == {};
    } else {
      var front, r := ids[..|ids| - 1], ids[|ids| - 1];
      assert r in ids;
      ExpireEachSettles(s, front);
      assert r !in ToSet(front);
      ExpireOneMore(s, ToSet(front), r);
      assert ToSet(ids) == ToSet(front) + {r};
      StillThere(s, ToSet(front), r);
    }
  }

  lemma StillThere(s: Tables, rs: set<Id>, r: Id)
    requires r in s.reservations
    ensures r in Settle(s, rs, Expired).reservations
  {
  }

  /** And none of them fails on the way. */
  lemma ExpireEachSettleable(s: Tables, ids: seq<Id>, n: nat)
    requires Inv(s) && Distinct(ids) && AllReserved(s, ids) && n < |ids|
    ensures Settleable(ExpireEach(s, ids[..n]), ids[n])
  {
    hide Settleable, SettleOne, Inv, Settle;
    assert ids[n] in ids && ids[n] !in ToSet(ids[..n]);
    ExpireEachSettles(s, ids[..n]);
    ExpireOneMore(s, ToSet(ids[..n]), ids[n]);
  }

  /** The two bulk UPDATEs of the seat sweep equal expiring the same list one by one, whatever its order. */
  lemma SweepIsExpireEach(s: Tables, ids: seq<Id>)
    requires Inv(s) && Distinct(ids) && AllReserved(s, ids) && forall r :: r in ids ==> s.reservations[r].kind == Seats
    ensures ExpireEach(s, ids)
         == s.(holds := MarkedHolds(s.holds, ToSet(ids), Expired),
               reservations := MarkedHeaders(s.reservations, ToSet(ids), Expired))
  {
    ExpireEachSettles(s, ids);
    SweepSettles(s, ToSet(ids));
  }

  /** The overdue branch of cancel and confirm commits what the worker would have committed, and reports an error. */
  lemma OverdueBranchExpires(s: Tables, s': Tables, rid: Id, visitor: Visitor, want: Status, now: Time,
                             reply: Reply<ReservationResponse>)
    requires Inv(s) && (want == Cancelled || want == Confirmed) && Finishes(s, s', rid, visitor, want, now, reply)
    requires rid in s.reservations && CanAccess(s.reservations[rid], visitor)
    requires s.reservations[rid].status == Reserved && Overdue(s.reservations[rid], now)
    ensures s' == ExpireEach(s, [rid]) == Settle(s, {rid}, Expired)
    ensures reply == Refused(ResponseOf(s', rid), Cannot(want)) && s'.reservations[rid].status == Expired
  {
    NeverBroken(s, rid);
    SettleOneSettles(s, rid, Expired);
    assert [rid][..0] == [];
    assert ExpireEach(s, [rid]) == SettleOne(s, rid, Expired);
  }
}
