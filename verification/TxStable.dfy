/** Another transaction's commit leaves every row this one has locked, so what this one has written stays right. */
module TxStable {
  import opened Schema
  import opened Ordering
  import opened Sums
  import opened Settlement
  import opened Machine
  import opened TxInvariant

  ghost predicate TypesKept(c: Tables, c': Tables, mine: set<Row>) {
    && (forall k :: k in c'.ticketTypes <==> k in c.ticketTypes)
    && (forall k :: k in c.ticketTypes && TypeRow(k) in mine ==> c'.ticketTypes[k] == c.ticketTypes[k])
  }

  ghost predicate HeadersKept(c: Tables, c': Tables, mine: set<Row>) {
    && (forall r :: r in c.reservations ==>
          r in c'.reservations && c'.reservations[r] == c.reservations[r].(status := c'.reservations[r].status))
    && (forall r :: r in c'.reservations && HeaderRow(r) in mine ==>
          r in c.reservations && c'.reservations[r] == c.reservations[r])
    && (forall r :: r in c'.reservations && r !in c.reservations ==>
          KeySlot(c'.reservations[r].sessionId, c'.reservations[r].key) !in mine)
  }

  ghost predicate ItemsKept(c: Tables, c': Tables, mine: set<Row>) {
    && (forall i :: i in c.items && HeaderRow(c.items[i].reservationId) in mine ==>
          i in c'.items && c'.items[i] == c.items[i])
    && (forall i :: i in c'.items && HeaderRow(c'.items[i].reservationId) in mine ==>
          i in c.items && c'.items[i] == c.items[i])
    && (forall i :: i in c'.items && ItemRow(i) in mine ==> i in c.items)
  }

  ghost predicate HoldsKept(c: Tables, c': Tables, mine: set<Row>) {
    && (forall h :: h in c.holds ==>
          && h in c'.holds
          && (c'.holds[h] == c.holds[h]
              || (c.holds[h].status == Reserved && c'.holds[h].status != Reserved
                  && c'.holds[h] == c.holds[h].(status := c'.holds[h].status))))
    && (forall h :: h in c.holds && HeaderRow(c.holds[h].reservationId) in mine ==> c'.holds[h] == c.holds[h])
    && (forall h :: h in c'.holds && h !in c.holds ==>
          HeaderRow(c'.holds[h].reservationId) !in mine && HoldRow(h) !in mine && SeatRow(c'.holds[h].seatId) !in mine)
  }

  ghost predicate Kept(c: Tables, c': Tables, mine: set<Row>) {
    c'.seats == c.seats && TypesKept(c, c', mine) && HeadersKept(c, c', mine) && ItemsKept(c, c', mine)
    && HoldsKept(c, c', mine)
  }

  /** The one place where lock exclusivity is used. */
  lemma CommitKeeps(c: Tables, theirs: set<Row>, w: Writes, mine: set<Row>)
    requires Footprint(c, theirs, w) && theirs !! mine
    ensures Kept(c, View(c, w), mine)
  {
    var c' := View(c, w);
    TypesKeptBy(c, theirs, w, mine);
    HeadersKeptBy(c, theirs, w, mine);
    ItemsKeptBy(c, theirs, w, mine);
    HoldsKeptBy(c, theirs, w, mine);
  }

  lemma TypesKeptBy(c: Tables, theirs: set<Row>, w: Writes, mine: set<Row>)
    requires forall k :: k in w.ticketTypes ==> TypeRow(k) in theirs && k in c.ticketTypes
    requires theirs !! mine
    ensures TypesKept(c, View(c, w), mine)
  {
  }

  lemma HeadersKeptBy(c: Tables, theirs: set<Row>, w: Writes, mine: set<Row>)
    requires forall r :: r in w.headers ==> HeaderWriteOk(c, theirs, r, w.headers[r])
    requires theirs !! mine
    ensures HeadersKept(c, View(c, w), mine)
  {
    forall r | r in w.headers ensures HeaderRow(r) in theirs { assert HeaderWriteOk(c, theirs, r, w.headers[r]); }
  }

  lemma ItemsKeptBy(c: Tables, theirs: set<Row>, w: Writes, mine: set<Row>)
    requires forall i :: i in w.items ==> ItemWriteOk(c, theirs, i, w.items[i])
    requires theirs !! mine
    ensures ItemsKept(c, View(c, w), mine)
  {
    forall i | i in w.items
      ensures HeaderRow(w.items[i].reservationId) in theirs { assert ItemWriteOk(c, theirs, i, w.items[i]); }
  }

  lemma HoldsKeptBy(c: Tables, theirs: set<Row>, w: Writes, mine: set<Row>)
    requires forall h :: h in w.holds ==> HoldWriteOk(c, theirs, h, w.holds[h])
    requires theirs !! mine
    ensures HoldsKept(c, View(c, w), mine)
  {
    forall h | h in w.holds
      ensures HeaderRow(w.holds[h].reservationId) in theirs { assert HoldWriteOk(c, theirs, h, w.holds[h]); }
  }

  // ---------- settlements ----------

  lemma ItemUpdatesKept(c: Tables, c': Tables, mine: set<Row>, rs: set<Id>, target: Status)
    requires ItemsKept(c, c', mine)
    requires forall r :: r in rs ==> HeaderRow(r) in mine
    ensures ItemUpdates(c'.items, rs, target) == ItemUpdates(c.items, rs, target)
    ensures Owned(c'.items, rs) == Owned(c.items, rs)
  {
  }

  lemma HoldUpdatesKept(c: Tables, c': Tables, mine: set<Row>, rs: set<Id>, target: Status)
    requires HoldsKept(c, c', mine)
    requires forall r :: r in rs ==> HeaderRow(r) in mine
    ensures HoldUpdates(c'.holds, rs, target) == HoldUpdates(c.holds, rs, target)
  {
  }

  lemma HeaderUpdatesKept(c: Tables, c': Tables, mine: set<Row>, rs: set<Id>, target: Status)
    requires HeadersKept(c, c', mine)
    requires forall r :: r in rs ==> HeaderRow(r) in mine && r in c.reservations
    ensures HeaderUpdates(c'.reservations, rs, target) == HeaderUpdates(c.reservations, rs, target)
  {
  }

  lemma CountersKept(c: Tables, c': Tables, mine: set<Row>, types: map<Id, TicketType>, moved: set<Id>, target: Status)
    requires TypesKept(c, c', mine) && ItemsKept(c, c', mine)
    requires CountersOk(c, mine, types, moved, target)
    requires forall i :: i in moved ==> i in c.items && HeaderRow(c.items[i].reservationId) in mine
    ensures CountersOk(c', mine, types, moved, target)
  {
    forall k ensures Qty(c'.items, moved, k) == Qty(c.items, moved, k) {
      QtySame(c.items, c'.items, moved, k);
    }
  }

  lemma QueueKept(c: Tables, c': Tables, mine: set<Row>, q: Request, target: Status, now: Time, queue: seq<Id>)
    requires HeadersKept(c, c', mine) && QueueOk(c, mine, q, target, now, queue)
    ensures QueueOk(c', mine, q, target, now, queue)
  {
    forall r | r in queue ensures Queued(c', mine, q, r, target, now) {
      assert Queued(c, mine, q, r, target, now);
    }
  }

  lemma SubKept(c: Tables, c': Tables, mine: set<Row>, queue: seq<Id>, done: nat, sub: Sub)
    requires HeadersKept(c, c', mine) && ItemsKept(c, c', mine) && SubOk(c, queue, done, sub)
    requires forall r :: r in queue ==> HeaderRow(r) in mine
    ensures SubOk(c', queue, done, sub)
  {
    if sub.Moving? {
      var r := queue[done];
      assert r in queue;
      forall i ensures i in sub.list <==> i in c'.items && c'.items[i].reservationId == r {
        assert i in sub.list <==> i in c.items && c.items[i].reservationId == r;
      }
    }
  }

  lemma SubInRange(c: Tables, queue: seq<Id>, done: nat, sub: Sub)
    requires SubOk(c, queue, done, sub)
    ensures done <= |queue|
  {
  }

  lemma MovedKept(c: Tables, c': Tables, mine: set<Row>, queue: seq<Id>, done: nat, sub: Sub)
    requires ItemsKept(c, c', mine) && SubOk(c, queue, done, sub)
    requires forall r :: r in queue ==> HeaderRow(r) in mine
    ensures var marked := MarkedSet(queue, done, sub);
            && MovedSet(c'.items, marked, sub) == MovedSet(c.items, marked, sub)
            && forall i :: i in MovedSet(c.items, marked, sub) ==>
                 i in c.items && HeaderRow(c.items[i].reservationId) in mine
  {
    var marked := MarkedSet(queue, done, sub);
    assert forall r :: r in marked ==> r in queue;
    ItemUpdatesKept(c, c', mine, marked, Expired);
    if sub.Moving? {
      assert queue[done] in queue;
      assert forall i :: i in sub.list[..sub.next] ==> i in sub.list;
    }
  }

  lemma SettlingKept(c: Tables, c': Tables, mine: set<Row>, q: Request, w: Writes, st: Stage)
    requires Kept(c, c', mine) && st.Settling? && SettlingOk(c, mine, q, w, st)
    ensures SettlingOk(c', mine, q, w, st)
  {
    hide SubOk, CountersOk, MovedSet, ItemUpdates, HoldUpdates, HeaderUpdates, TypesKept, HeadersKept, ItemsKept;
    hide HoldsKept;
    assert st.done <= |st.queue| by { SubInRange(c, st.queue, st.done, st.sub); }
    QueueKept(c, c', mine, q, st.target, st.now, st.queue);
    assert forall r :: r in st.queue ==> HeaderRow(r) in mine && r in c.reservations by {
      assert forall r :: r in st.queue ==> Queued(c, mine, q, r, st.target, st.now);
    }
    SubKept(c, c', mine, st.queue, st.done, st.sub);
    MovedKept(c, c', mine, st.queue, st.done, st.sub);
    var marked := MarkedSet(st.queue, st.done, st.sub);
    assert forall r :: r in marked ==> r in st.queue;
    ItemUpdatesKept(c, c', mine, marked, st.target);
    HoldUpdatesKept(c, c', mine, marked, st.target);
    HeaderUpdatesKept(c, c', mine, ToSet(st.queue[..st.done]), st.target);
    CountersKept(c, c', mine, w.ticketTypes, MovedSet(c.items, marked, st.sub), st.target);
  }

  // ---------- new reservations ----------

  lemma HeaderFreshKept(c: Tables, c': Tables, mine: set<Row>, rid: Id, visitor: Visitor, key: string)
    requires HeadersKept(c, c', mine) && HeaderFresh(c, mine, rid, visitor, key)
    ensures HeaderFresh(c', mine, rid, visitor, key)
  {
  }

  lemma QuantityKept(c: Tables, c': Tables, mine: set<Row>, q: Request, w: Writes, st: Stage)
    requires Kept(c, c', mine) && q.QuantityRequest? && QuantityOk(c, mine, q, w, st)
    ensures QuantityOk(c', mine, q, w, st)
  {
    match st
    case QuantityHeader(rid) => HeaderFreshKept(c, c', mine, rid, q.visitor, q.key);
    case QuantityDone(rid, _) => HeaderFreshKept(c, c', mine, rid, q.visitor, q.key);
    case _ =>
  }

  lemma ListedKept(c: Tables, c': Tables, mine: set<Row>, r: Id, seatIds: seq<Id>, listedAt: Time)
    requires HeadersKept(c, c', mine) && HoldsKept(c, c', mine) && Listed(c, r, seatIds, listedAt)
    ensures Listed(c', r, seatIds, listedAt)
  {
    var h :| h in c.holds && c.holds[h].reservationId == r && c.holds[h].seatId in seatIds;
    assert h in c'.holds && c'.holds[h].reservationId == r && c'.holds[h].seatId == c.holds[h].seatId;
  }

  /** Nobody can add a hold on a seat this transaction has locked. */
  lemma NoNewHold(c: Tables, c': Tables, mine: set<Row>, q: Request, h: Id)
    requires q.SeatsRequest? && SeatsLocked(c, mine, q, |q.seatIds|) && HoldsKept(c, c', mine)
    requires h in c'.holds && c'.holds[h].seatId in q.seatIds
    ensures h in c.holds
  {
    var j :| 0 <= j < |q.seatIds| && q.seatIds[j] == c'.holds[h].seatId;
    assert SeatLocked(c, mine, q, q.seatIds[j]);
  }

  lemma HoldersKept(c: Tables, c': Tables, mine: set<Row>, q: Request, listedAt: Time, holders: seq<Id>, n: nat)
    requires Kept(c, c', mine) && q.SeatsRequest? && HoldersOk(c, mine, q, listedAt, holders, n)
    ensures HoldersOk(c', mine, q, listedAt, holders, n)
  {
    forall j | 0 <= j < |q.seatIds| ensures SeatLocked(c', mine, q, q.seatIds[j]) {
      assert SeatLocked(c, mine, q, q.seatIds[j]);
    }
    forall r | r in holders ensures Listed(c', r, q.seatIds, listedAt) {
      ListedKept(c, c', mine, r, q.seatIds, listedAt);
    }
    forall h | h in c'.holds && c'.holds[h].seatId in q.seatIds && c'.holds[h].status == Reserved
      && c'.holds[h].expiresAt <= listedAt
      ensures c'.holds[h].reservationId in holders
    {
      NoNewHold(c, c', mine, q, h);
    }
  }

  lemma SweptKept(c: Tables, c': Tables, mine: set<Row>, q: Request, w: Writes, listedAt: Time, holders: seq<Id>,
                  rows: map<Id, Hold>)
    requires Kept(c, c', mine) && q.SeatsRequest? && HoldersOk(c, mine, q, listedAt, holders, |holders|)
    requires SweptWrites(c, w, holders, rows)
    ensures SweptWrites(c', w, holders, rows)
    ensures HeaderUpdates(c'.reservations, ToSet(holders), Expired)
            == HeaderUpdates(c.reservations, ToSet(holders), Expired)
  {
    forall r | r in ToSet(holders) ensures HeaderRow(r) in mine && r in c.reservations {
      HolderLocked(c, mine, q, listedAt, holders, r);
    }
    HoldUpdatesKept(c, c', mine, ToSet(holders), Expired);
    HeaderUpdatesKept(c, c', mine, ToSet(holders), Expired);
  }

  lemma RowsKept(c: Tables, c': Tables, mine: set<Row>, q: Request, listedAt: Time, holders: seq<Id>, rid: Id,
                 rows: map<Id, Hold>)
    requires Kept(c, c', mine) && q.SeatsRequest? && HoldersOk(c, mine, q, listedAt, holders, |holders|)
    requires RowsOk(c, mine, q, holders, rid, rows)
    ensures RowsOk(c', mine, q, holders, rid, rows)
  {
    forall h | h in c'.holds && c'.holds[h].seatId in q.seatIds[..|rows|] && Active(c'.holds[h].status)
      ensures c'.holds[h].reservationId in holders && c'.holds[h].status == Reserved
    {
      NoNewHold(c, c', mine, q, h);
      assert c.holds[h].reservationId in holders;
      HolderLocked(c, mine, q, listedAt, holders, c.holds[h].reservationId);
    }
  }

  lemma SeatsKept(c: Tables, c': Tables, mine: set<Row>, q: Request, w: Writes, st: Stage)
    requires Kept(c, c', mine) && q.SeatsRequest? && SeatsOk(c, mine, q, w, st)
    ensures SeatsOk(c', mine, q, w, st)
  {
    match st
    case LockingSeats(next, missing) =>
      if !missing {
        forall j | 0 <= j < next ensures SeatLocked(c', mine, q, q.seatIds[j]) {
          assert SeatLocked(c, mine, q, q.seatIds[j]);
        }
      }
    case LockingHolders(listedAt, holders, next) => HoldersKept(c, c', mine, q, listedAt, holders, next);
    case HoldersExpired(listedAt, holders) =>
      HoldersKept(c, c', mine, q, listedAt, holders, |holders|);
      SweptKept(c, c', mine, q, w, listedAt, holders, map[]);
    case HeadersExpired(listedAt, holders) =>
      HoldersKept(c, c', mine, q, listedAt, holders, |holders|);
      SweptKept(c, c', mine, q, w, listedAt, holders, map[]);
    case Inserting(listedAt, holders, rid, rows) =>
      HoldersKept(c, c', mine, q, listedAt, holders, |holders|);
      SweptKept(c, c', mine, q, w, listedAt, holders, rows);
      HeaderFreshKept(c, c', mine, rid, q.visitor, q.key);
      RowsKept(c, c', mine, q, listedAt, holders, rid, rows);
    case _ =>
  }

  lemma TxKept(c: Tables, c': Tables, tx: Tx)
    requires Kept(c, c', tx.rows) && TxOk(c, tx)
    ensures TxOk(c', tx)
  {
    if tx.stage.Settling? { SettlingKept(c, c', tx.rows, tx.request, tx.writes, tx.stage); }
    else if tx.request.QuantityRequest? { QuantityKept(c, c', tx.rows, tx.request, tx.writes, tx.stage); }
    else if tx.request.SeatsRequest? { SeatsKept(c, c', tx.rows, tx.request, tx.writes, tx.stage); }
  }
}
