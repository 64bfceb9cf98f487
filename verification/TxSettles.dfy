/** Every statement of a cancel, a confirm or a worker batch keeps SettlingOk, and none of them can fail. */
module TxSettles {
  import opened Schema
  import opened Ordering
  import opened Sums
  import opened Invariant
  import opened Settlement
  import opened Serial
  import opened Machine
  import opened TxInvariant

  // ---------- locking the queue ----------

  lemma NothingMarked(c: Tables, mine: set<Row>, q: Request, target: Status, now: Time, queue: seq<Id>)
    requires QueueOk(c, mine, q, target, now, queue)
    ensures SettlingOk(c, mine, q, NoWrites(), Settling(target, now, queue, 0, Idle))
  {
    assert ToSet(queue[..0]) == {};
    assert MarkedSet(queue, 0, Idle) == {};
    assert NoWrites().headers == HeaderUpdates(c.reservations, {}, target);
    assert NoWrites().items == ItemUpdates(c.items, {}, target);
    assert NoWrites().holds == HoldUpdates(c.holds, {}, target);
    assert Owned(c.items, {}) == {};
  }

  lemma LockHeaderOk(c: Tables, mine: set<Row>, busy: set<Row>, q: Request, now: Time, p: Progress)
    requires q.FinishRequest? && WellFormed(q) && LockHeader(c, busy, q, NoWrites(), now) == Some(p)
    ensures p.writes == NoWrites()
    ensures p.stage.Answered? || (p.stage.Settling? && SettlingOk(c, mine + p.takes, q, p.writes, p.stage))
  {
    if p.stage.Settling? {
      assert Queued(c, mine + p.takes, q, q.rid, p.stage.target, now);
      NothingMarked(c, mine + p.takes, q, p.stage.target, now, [q.rid]);
    }
  }

  lemma BatchQueued(c: Tables, busy: set<Row>, mine: set<Row>, q: Request, now: Time, ids: seq<Id>, queue: seq<Id>)
    requires q.BatchRequest? && queue <= ids
    requires Listing(Deadlines(c), Due(c, busy, now), ids)
    requires forall r :: r in queue ==> HeaderRow(r) in mine
    ensures QueueOk(c, mine, q, Expired, now, queue)
  {
    ListingDistinct(Deadlines(c), Due(c, busy, now), ids);
    forall r | r in queue ensures Queued(c, mine, q, r, Expired, now) {
      assert r in ids;
      assert r in Due(c, busy, now);
    }
  }

  lemma LockBatchOk(c: Tables, mine: set<Row>, busy: set<Row>, q: Request, now: Time, p: Progress)
    requires q.BatchRequest? && LockBatch(c, busy, q, NoWrites(), now) == Some(p)
    ensures p.stage.Settling? && SettlingOk(c, mine + p.takes, q, p.writes, p.stage)
  {
    hide SettlingOk, QueueOk, Due;
    var ids := OrderBy(Due(c, busy, now), Deadlines(c));
    var queue := p.stage.queue;
    assert queue <= ids;
    BatchQueued(c, busy, mine + p.takes, q, now, ids, queue);
    NothingMarked(c, mine + p.takes, q, Expired, now, queue);
  }

  // ---------- one row version at a time ----------

  lemma MarkMoreItems(items: map<Id, Item>, written: map<Id, Item>, marked: set<Id>, target: Status, r: Id)
    requires written == ItemUpdates(items, marked, target) && r !in marked
    ensures var v := items + written;
            && v.Keys == items.Keys
            && (forall i :: i in items ==>
                  v[i].reservationId == items[i].reservationId && v[i].ticketTypeId == items[i].ticketTypeId)
            && (forall i :: i in items && items[i].reservationId == r ==> v[i] == items[i])
            && written + ItemUpdates(v, {r}, target) == ItemUpdates(items, marked + {r}, target)
  {
    var v := items + written;
    var a, b := written + ItemUpdates(v, {r}, target), ItemUpdates(items, marked + {r}, target);
    assert forall i :: i in a <==> i in b;
  }

  lemma MarkMoreHolds(holds: map<Id, Hold>, written: map<Id, Hold>, marked: set<Id>, target: Status, r: Id)
    requires written == HoldUpdates(holds, marked, target) && r !in marked
    ensures written + HoldUpdates(holds + written, {r}, target) == HoldUpdates(holds, marked + {r}, target)
  {
    var a, b := written + HoldUpdates(holds + written, {r}, target), HoldUpdates(holds, marked + {r}, target);
    assert forall h :: h in a <==> h in b;
  }

  lemma MarkMoreHeaders(headers: map<Id, Reservation>, written: map<Id, Reservation>, marked: set<Id>, target: Status,
                        r: Id)
    requires written == HeaderUpdates(headers, marked, target) && r !in marked
    requires r in headers && headers[r].status == Reserved
    ensures written[r := headers[r].(status := target)] == HeaderUpdates(headers, marked + {r}, target)
  {
    var a, b := written[r := headers[r].(status := target)], HeaderUpdates(headers, marked + {r}, target);
    assert forall x :: x in a <==> x in b;
  }

  lemma NoItems(items: map<Id, Item>, marked: set<Id>, r: Id, target: Status)
    requires forall i :: i in items ==> items[i].reservationId != r
    ensures ItemUpdates(items, marked + {r}, target) == ItemUpdates(items, marked, target)
    ensures Owned(items, marked + {r}) == Owned(items, marked)
  {
    var a, b := ItemUpdates(items, marked + {r}, target), ItemUpdates(items, marked, target);
    assert forall i :: i in a <==> i in b;
  }

  lemma NoHolds(holds: map<Id, Hold>, marked: set<Id>, r: Id, target: Status)
    requires forall h :: h in holds ==> holds[h].reservationId != r
    ensures HoldUpdates(holds, marked + {r}, target) == HoldUpdates(holds, marked, target)
  {
    var a, b := HoldUpdates(holds, marked + {r}, target), HoldUpdates(holds, marked, target);
    assert forall h :: h in a <==> h in b;
  }

  /** The counters a transaction sees are the committed ones less what it has moved. */
  lemma SeenCounter(c: Tables, mine: set<Row>, types: map<Id, TicketType>, moved: set<Id>, target: Status, k: Id)
    requires CountersOk(c, mine, types, moved, target) && k in c.ticketTypes
    ensures (if k in types then types[k] else c.ticketTypes[k])
            == Shift(c.ticketTypes[k], Qty(c.items, moved, k), target)
  {
    if k !in types { QtyNone(c.items, moved, k); }
  }

  lemma CounterMoves(c: Tables, mine: set<Row>, types: map<Id, TicketType>, moved: set<Id>, target: Status, x: Id,
                     k: Id, seen: TicketType)
    requires CountersOk(c, mine, types, moved, target)
    requires x in c.items && x !in moved && k == c.items[x].ticketTypeId && k in c.ticketTypes
    requires seen == Shift(c.ticketTypes[k], Qty(c.items, moved, k), target)
    ensures CountersOk(c, mine + {TypeRow(k)}, types[k := Shift(seen, c.items[x].quantity, target)],
                       moved + {x}, target)
  {
    var types' := types[k := Shift(seen, c.items[x].quantity, target)];
    forall j | j in types'
      ensures types'[j] == Shift(c.ticketTypes[j], Qty(c.items, moved + {x}, j), target)
    {
      QtyAdd(c.items, moved, x, j);
    }
  }

  // ---------- settling the reservation at the head of the queue ----------

  ghost predicate InProgress(c: Tables, mine: set<Row>, q: Request, w: Writes, st: Stage) {
    st.Settling? && SettlingOk(c, mine, q, w, st) && st.done < |st.queue|
  }

  lemma HeadOfQueue(c: Tables, mine: set<Row>, q: Request, target: Status, now: Time, queue: seq<Id>, done: nat)
    requires QueueOk(c, mine, q, target, now, queue) && done < |queue|
    ensures queue[done] in c.reservations && c.reservations[queue[done]].status == Reserved
    ensures queue[done] !in ToSet(queue[..done])
    ensures ToSet(queue[..done + 1]) == ToSet(queue[..done]) + {queue[done]}
  {
    var r := queue[done];
    assert r in queue;
    assert Queued(c, mine, q, r, target, now);
    forall j | 0 <= j < done ensures queue[..done][j] != r { assert queue[j] != queue[done]; }
    assert queue[..done + 1] == queue[..done] + [r];
  }

  /** The current reservation has not been touched by this transaction yet, except for the counters. */
  lemma CurrentUntouched(c: Tables, mine: set<Row>, q: Request, w: Writes, st: Stage)
    requires InProgress(c, mine, q, w, st)
    ensures var r := st.queue[st.done];
            && r in c.reservations && c.reservations[r].status == Reserved
            && r !in ToSet(st.queue[..st.done])
            && View(c, w).reservations[r] == c.reservations[r]
  {
    HeadOfQueue(c, mine, q, st.target, st.now, st.queue, st.done);
  }

  /** ListReservationItems finds the reservation's items, all of them still reserved. */
  lemma ListItemsOk(c: Tables, queue: seq<Id>, done: nat, v: Tables)
    requires Agrees(c) && done < |queue|
    requires queue[done] in c.reservations && c.reservations[queue[done]].status == Reserved
             && c.reservations[queue[done]].kind == Quantity
    requires v.items.Keys == c.items.Keys
    requires forall i :: i in c.items ==> v.items[i].reservationId == c.items[i].reservationId
    ensures SubOk(c, queue, done, Moving(ListItems(v, queue[done]), 0))
  {
    var r := queue[done];
    var list := ListItems(v, r);
    ListingDistinct(TypeOrder(v.items), ItemsOf(v.items, r), list);
    forall i ensures i in list <==> i in c.items && c.items[i].reservationId == r {
      assert i in list <==> i in ItemsOf(v.items, r);
    }
    forall i | i in list ensures c.items[i].status == Reserved {
      assert ItemAgrees(c, c.items[i]);
    }
  }

  lemma IdleQuantityOk(c: Tables, mine: set<Row>, busy: set<Row>, q: Request, w: Writes, st: Stage, p: Progress)
    requires Agrees(c) && InProgress(c, mine, q, w, st) && st.sub.Idle?
    requires st.queue[st.done] in c.reservations && c.reservations[st.queue[st.done]].kind == Quantity
    requires SettleStep(c, busy, w, st) == Some(p)
    ensures p.takes == {} && p.stage.Settling? && SettlingOk(c, mine, q, p.writes, p.stage)
  {
    hide QueueOk, CountersOk, HeaderUpdates, ItemUpdates, HoldUpdates, Agrees, ListItems;
    CurrentUntouched(c, mine, q, w, st);
    var marked := MarkedSet(st.queue, st.done, st.sub);
    assert marked == ToSet(st.queue[..st.done]);
    MarkMoreItems(c.items, w.items, marked, st.target, st.queue[st.done]);
    ListItemsOk(c, st.queue, st.done, View(c, w));
    assert ToSet(p.stage.sub.list[..0]) == {};
    assert MovedSet(c.items, marked, p.stage.sub) == MovedSet(c.items, marked, st.sub);
  }

  lemma IdleSeatsOk(c: Tables, mine: set<Row>, busy: set<Row>, q: Request, w: Writes, st: Stage, p: Progress)
    requires InProgress(c, mine, q, w, st) && st.sub.Idle?
    requires st.queue[st.done] in c.reservations && c.reservations[st.queue[st.done]].kind == Seats
    requires forall i :: i in c.items ==> c.items[i].reservationId != st.queue[st.done]
    requires SettleStep(c, busy, w, st) == Some(p)
    ensures p.takes == {} && p.stage.Settling? && SettlingOk(c, mine, q, p.writes, p.stage)
  {
    hide QueueOk, CountersOk, HeaderUpdates, ItemUpdates, HoldUpdates;
    var r := st.queue[st.done];
    CurrentUntouched(c, mine, q, w, st);
    var marked := MarkedSet(st.queue, st.done, st.sub);
    assert marked == ToSet(st.queue[..st.done]);
    MarkMoreHolds(c.holds, w.holds, marked, st.target, r);
    NoItems(c.items, marked, r, st.target);
    assert MarkedSet(st.queue, st.done, p.stage.sub) == marked + {r};
  }

  lemma IdleOk(c: Tables, mine: set<Row>, busy: set<Row>, q: Request, w: Writes, st: Stage, p: Progress)
    requires Agrees(c) && InProgress(c, mine, q, w, st) && st.sub.Idle?
    requires SettleStep(c, busy, w, st) == Some(p)
    ensures p.takes == {} && p.stage.Settling? && SettlingOk(c, mine, q, p.writes, p.stage)
  {
    hide SettlingOk, SettleStep;
    CurrentUntouched(c, mine, q, w, st);
    var r := st.queue[st.done];
    if c.reservations[r].kind == Quantity {
      IdleQuantityOk(c, mine, busy, q, w, st, p);
    } else {
      forall i | i in c.items ensures c.items[i].reservationId != r { assert ItemAgrees(c, c.items[i]); }
      IdleSeatsOk(c, mine, busy, q, w, st, p);
    }
  }

  /** What the loop is about to move, and what it has moved before. */
  lemma NextItem(c: Tables, w: Writes, queue: seq<Id>, done: nat, sub: Sub, target: Status)
    requires SubOk(c, queue, done, sub) && sub.Moving? && sub.next < |sub.list|
    requires queue[done] !in ToSet(queue[..done])
    requires w.items == ItemUpdates(c.items, ToSet(queue[..done]), target)
    ensures var x := sub.list[sub.next];
            var moved := MovedSet(c.items, ToSet(queue[..done]), sub);
            && x in c.items && c.items[x].status == Reserved && c.items[x].reservationId == queue[done]
            && View(c, w).items[x] == c.items[x]
            && x !in moved
            && moved + {x} <= WithStatus(c.items, Reserved)
            && MovedSet(c.items, ToSet(queue[..done]), Moving(sub.list, sub.next + 1)) == moved + {x}
  {
    var x := sub.list[sub.next];
    assert x in sub.list;
    var before, after := sub.list[..sub.next], sub.list[..sub.next + 1];
    assert after == before + [x];
    forall j | 0 <= j < |before| ensures before[j] != x { assert sub.list[j] != sub.list[sub.next]; }
    forall i | i in before ensures i in c.items && c.items[i].status == Reserved { assert i in sub.list; }
    assert ToSet(after) == ToSet(before) + {x};
  }

  lemma QueueGrows(c: Tables, mine: set<Row>, more: set<Row>, q: Request, target: Status, now: Time, queue: seq<Id>)
    requires QueueOk(c, mine, q, target, now, queue) && mine <= more
    ensures QueueOk(c, more, q, target, now, queue)
  {
    forall r | r in queue ensures Queued(c, more, q, r, target, now) {
      assert Queued(c, mine, q, r, target, now);
    }
  }

  lemma MoveStockOk(c: Tables, mine: set<Row>, busy: set<Row>, q: Request, w: Writes, st: Stage, p: Progress)
    requires InProgress(c, mine, q, w, st) && st.sub.Moving? && st.sub.next < |st.sub.list|
    requires c.items[st.sub.list[st.sub.next]].ticketTypeId in c.ticketTypes
    requires MoveStock(c, busy, w, st) == Some(p)
    ensures p.stage.Settling? && SettlingOk(c, mine + p.takes, q, p.writes, p.stage)
  {
    hide QueueOk, CountersOk, HeaderUpdates, HoldUpdates, ItemUpdates, WithStatus, Qty, Owned;
    CurrentUntouched(c, mine, q, w, st);
    var marked := MarkedSet(st.queue, st.done, st.sub);
    assert marked == ToSet(st.queue[..st.done]);
    NextItem(c, w, st.queue, st.done, st.sub, st.target);
    var x := st.sub.list[st.sub.next];
    var k := c.items[x].ticketTypeId;
    var moved := MovedSet(c.items, marked, st.sub);
    SeenCounter(c, mine, w.ticketTypes, moved, st.target, k);
    CounterMoves(c, mine, w.ticketTypes, moved, st.target, x, k, View(c, w).ticketTypes[k]);
    QueueGrows(c, mine, mine + p.takes, q, st.target, st.now, st.queue);
    assert MarkedSet(st.queue, st.done, p.stage.sub) == marked;
  }

  lemma AllMoved(c: Tables, queue: seq<Id>, done: nat, sub: Sub)
    requires SubOk(c, queue, done, sub) && sub.Moving? && sub.next == |sub.list|
    ensures var marked := ToSet(queue[..done]);
            MovedSet(c.items, marked, sub) == MovedSet(c.items, marked + {queue[done]}, ChildrenDone)
  {
    assert sub.list[..|sub.list|] == sub.list;
    var a, b := MovedSet(c.items, ToSet(queue[..done]), sub),
      MovedSet(c.items, ToSet(queue[..done]) + {queue[done]}, ChildrenDone);
    forall i ensures i in a <==> i in b {
      assert i in ToSet(sub.list) <==> i in c.items && c.items[i].reservationId == queue[done];
    }
  }

  lemma MarkItemsOk(c: Tables, mine: set<Row>, busy: set<Row>, q: Request, w: Writes, st: Stage, p: Progress)
    requires InProgress(c, mine, q, w, st) && st.sub.Moving? && st.sub.next == |st.sub.list|
    requires forall h :: h in c.holds ==> c.holds[h].reservationId != st.queue[st.done]
    requires SettleStep(c, busy, w, st) == Some(p)
    ensures p.takes == {} && p.stage.Settling? && SettlingOk(c, mine, q, p.writes, p.stage)
  {
    hide QueueOk, CountersOk, HeaderUpdates, HoldUpdates, ItemUpdates, MovedSet;
    var r := st.queue[st.done];
    CurrentUntouched(c, mine, q, w, st);
    var marked := MarkedSet(st.queue, st.done, st.sub);
    assert marked == ToSet(st.queue[..st.done]);
    MarkMoreItems(c.items, w.items, marked, st.target, r);
    assert MarkedSet(st.queue, st.done, p.stage.sub) == marked + {r};
    NoHolds(c.holds, marked, r, st.target);
    AllMoved(c, st.queue, st.done, st.sub);
  }

  lemma MarkHeaderOk(c: Tables, mine: set<Row>, busy: set<Row>, q: Request, w: Writes, st: Stage, p: Progress)
    requires InProgress(c, mine, q, w, st) && st.sub.ChildrenDone?
    requires SettleStep(c, busy, w, st) == Some(p)
    ensures p.takes == {} && p.stage.Settling? && SettlingOk(c, mine, q, p.writes, p.stage)
  {
    hide CountersOk, HoldUpdates, ItemUpdates;
    var r := st.queue[st.done];
    HeadOfQueue(c, mine, q, st.target, st.now, st.queue, st.done);
    CurrentUntouched(c, mine, q, w, st);
    MarkMoreHeaders(c.reservations, w.headers, ToSet(st.queue[..st.done]), st.target, r);
    assert MarkedSet(st.queue, st.done + 1, Idle) == MarkedSet(st.queue, st.done, st.sub);
  }

  lemma SettleStepOk(c: Tables, mine: set<Row>, busy: set<Row>, q: Request, w: Writes, st: Stage, p: Progress)
    requires Agrees(c) && st.Settling? && SettlingOk(c, mine, q, w, st)
    requires SettleStep(c, busy, w, st) == Some(p)
    ensures p.stage.Settling? && SettlingOk(c, mine + p.takes, q, p.writes, p.stage)
  {
    hide QueueOk, CountersOk, HeaderUpdates, HoldUpdates, ItemUpdates, MovedSet, MarkedSet;
    if st.sub.Moving? && st.sub.next < |st.sub.list| {
      assert st.sub.list[st.sub.next] in st.sub.list;
      assert ItemAgrees(c, c.items[st.sub.list[st.sub.next]]);
      MoveStockOk(c, mine, busy, q, w, st, p);
    } else {
      match st.sub {
        case Idle => IdleOk(c, mine, busy, q, w, st, p);
        case Moving(_, _) =>
          forall h | h in c.holds
            ensures c.holds[h].reservationId != st.queue[st.done] { assert HoldAgrees(c, c.holds[h]); }
          MarkItemsOk(c, mine, busy, q, w, st, p);
        case ChildrenDone => MarkHeaderOk(c, mine, busy, q, w, st, p);
      }
      assert mine + p.takes == mine;
    }
  }

  // ---------- ErrReservationInvariantBroken never happens ----------

  /** The guard reserved_quantity >= quantity, in the middle of the loop, with other transactions running. */
  lemma GuardHolds(c: Tables, mine: set<Row>, q: Request, w: Writes, st: Stage)
    requires ChecksOk(c) && Conserved(c)
    requires InProgress(c, mine, q, w, st) && st.sub.Moving? && st.sub.next < |st.sub.list|
    requires c.items[st.sub.list[st.sub.next]].ticketTypeId in c.ticketTypes
    ensures var x, v := st.sub.list[st.sub.next], View(c, w);
            && x in v.items && v.items[x] == c.items[x]
            && v.ticketTypes[v.items[x].ticketTypeId].reserved >= v.items[x].quantity
  {
    hide QueueOk, HeaderUpdates, HoldUpdates, ItemUpdates;
    CurrentUntouched(c, mine, q, w, st);
    assert MarkedSet(st.queue, st.done, st.sub) == ToSet(st.queue[..st.done]);
    NextItem(c, w, st.queue, st.done, st.sub, st.target);
    var x := st.sub.list[st.sub.next];
    var k := c.items[x].ticketTypeId;
    var moved := MovedSet(c.items, ToSet(st.queue[..st.done]), st.sub);
    SeenCounter(c, mine, w.ticketTypes, moved, st.target, k);
    QtyAdd(c.items, moved, x, k);
    QtyMonotone(c.items, moved + {x}, WithStatus(c.items, Reserved), k);
  }

  /** The loop cannot come to its end without having moved anything. */
  lemma MovesSomething(c: Tables, mine: set<Row>, q: Request, w: Writes, st: Stage)
    requires InProgress(c, mine, q, w, st) && st.sub.Moving?
    requires HasItem(c, st.queue[st.done])
    ensures exists i :: i in st.sub.list && i in View(c, w).items && View(c, w).items[i].status == Reserved
  {
    hide QueueOk, CountersOk, HeaderUpdates, HoldUpdates, ItemUpdates;
    CurrentUntouched(c, mine, q, w, st);
    var r := st.queue[st.done];
    var i :| i in c.items && c.items[i].reservationId == r;
    assert i in st.sub.list;
    assert MarkedSet(st.queue, st.done, st.sub) == ToSet(st.queue[..st.done]);
    MarkMoreItems(c.items, w.items, ToSet(st.queue[..st.done]), st.target, r);
    assert View(c, w).items[i] == c.items[i];
  }

  /** The next statement is the counter UPDATE of an item whose ticket-type row is locked elsewhere. */
  ghost predicate WaitsForCounter(c: Tables, busy: set<Row>, st: Stage) {
    && st.Settling? && st.sub.Moving? && st.sub.next < |st.sub.list|
    && st.sub.list[st.sub.next] in c.items
    && TypeRow(c.items[st.sub.list[st.sub.next]].ticketTypeId) in busy
  }

  lemma CounterStepRuns(c: Tables, mine: set<Row>, busy: set<Row>, q: Request, w: Writes, st: Stage)
    requires Inv(c) && InProgress(c, mine, q, w, st) && st.sub.Moving? && st.sub.next < |st.sub.list|
    ensures st.sub.list[st.sub.next] in c.items
    ensures SettleStep(c, busy, w, st).None? <==> TypeRow(c.items[st.sub.list[st.sub.next]].ticketTypeId) in busy
  {
    hide QueueOk, CountersOk, HeaderUpdates, HoldUpdates, ItemUpdates, HasItem, HasHold, Conserved, ReferencesOk;
    hide ChecksOk;
    hide KeysUnique, ActiveUnique;
    CurrentUntouched(c, mine, q, w, st);
    assert st.sub.list[st.sub.next] in st.sub.list;
    assert ItemAgrees(c, c.items[st.sub.list[st.sub.next]]);
    NextIsReserved(c, mine, q, w, st);
    GuardHolds(c, mine, q, w, st);
  }

  lemma NextIsReserved(c: Tables, mine: set<Row>, q: Request, w: Writes, st: Stage)
    requires InProgress(c, mine, q, w, st) && st.sub.Moving? && st.sub.next < |st.sub.list|
    ensures st.sub.list[st.sub.next] in c.items && c.items[st.sub.list[st.sub.next]].status == Reserved
  {
    assert st.sub.list[st.sub.next] in st.sub.list;
  }

  /** A settlement statement is stopped by nothing but a counter row locked elsewhere: no guard and no check fails. */
  lemma SettleStopsOnlyOnCounter(c: Tables, mine: set<Row>, busy: set<Row>, q: Request, w: Writes, st: Stage)
    requires Inv(c) && InProgress(c, mine, q, w, st)
    ensures SettleStep(c, busy, w, st).None? <==> WaitsForCounter(c, busy, st)
  {
    hide QueueOk, CountersOk, HeaderUpdates, HoldUpdates, ItemUpdates, HasItem, HasHold, Conserved, ReferencesOk;
    hide ChecksOk;
    hide KeysUnique, ActiveUnique;
    CurrentUntouched(c, mine, q, w, st);
    if st.sub.Moving? {
      if st.sub.next < |st.sub.list| {
        CounterStepRuns(c, mine, busy, q, w, st);
      } else {
        assert HasItem(c, st.queue[st.done]);
        MovesSomething(c, mine, q, w, st);
      }
    }
  }
}
