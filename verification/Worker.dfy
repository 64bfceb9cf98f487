/**
 The expiration worker alone with a fixed clock: k batches of b expire the first k*b overdue reservations, and
 no others.
 */
module Worker {
  import opened Schema
  import opened Ordering
  import opened Sums
  import opened Invariant
  import opened Settlement
  import opened Serial
  import opened Queries
  import opened Lifecycle
  import opened Service

  /** Settling a prefix of the queue leaves the rest of the queue. */
  lemma QueueShrinks(s: Tables, now: Time, n: nat)
    requires n <= |DueQueue(s, now)|
    ensures DueQueue(Settle(s, ToSet(DueQueue(s, now)[..n]), Expired), now) == DueQueue(s, now)[n..]
  {
    var ids := DueQueue(s, now);
    var gone := ToSet(ids[..n]);
    var s' := Settle(s, gone, Expired);
    RowsShrink(s, now, gone);
    ListingDrop(Deadlines(s), Overdues(s, now), ids, n);
    KeepsDeadlines(s, now, gone);
    ListingUnique(Deadlines(s'), Deadlines(s), Overdues(s', now), DueQueue(s', now), ids[n..]);
  }

  lemma RowsShrink(s: Tables, now: Time, gone: set<Id>)
    ensures Overdues(Settle(s, gone, Expired), now) == Overdues(s, now) - gone
  {
    var a, b := Overdues(Settle(s, gone, Expired), now), Overdues(s, now) - gone;
    forall r ensures r in a <==> r in b {
      if r in s.reservations {
        assert Settle(s, gone, Expired).reservations[r] == MarkHeader(s.reservations[r], r in gone, Expired);
      }
    }
  }

  lemma KeepsDeadlines(s: Tables, now: Time, gone: set<Id>)
    ensures forall r :: r in Overdues(Settle(s, gone, Expired), now) ==>
              Deadlines(Settle(s, gone, Expired))(r) == Deadlines(s)(r)
  {
  }

  /** The tables after k worker batches. */
  ghost function AfterBatches(s: Tables, now: Time, b: nat, k: nat): Tables {
    if k == 0 then s
    else
      var before := AfterBatches(s, now, b, k - 1);
      ExpireEach(before, Prefix(DueQueue(before, now), b))
  }

  function Least(a: int, b: int): int {
    if a < b then a else b
  }

  /** What k batches of b can hold. */
  function Capacity(b: nat, k: nat): nat {
    if k == 0 then 0 else Capacity(b, k - 1) + b
  }

  lemma {:induction false} CapacityIsProduct(b: nat, k: nat)
    ensures Capacity(b, k) == k * b
  {
    if k > 0 {
      CapacityIsProduct(b, k - 1);
      assert k * b == (k - 1) * b + b;
    }
  }

  lemma {:induction false} BatchesFold(s: Tables, now: Time, b: nat, k: nat)
    requires Inv(s) && b > 0
    ensures var n := Least(|DueQueue(s, now)|, Capacity(b, k));
            && AfterBatches(s, now, b, k) == Settle(s, ToSet(DueQueue(s, now)[..n]), Expired)
            && DueQueue(AfterBatches(s, now, b, k), now) == DueQueue(s, now)[n..]
            && Inv(AfterBatches(s, now, b, k))
  {
    hide Inv, Settle, DueQueue, ExpireEach;
    var ids := DueQueue(s, now);
    if k == 0 {
      assert ids[..0] == [] && ToSet(ids[..0]) == {};
      ExpireNone(s);
    } else {
      BatchesFold(s, now, b, k - 1);
      NextBatch(s, now, b, Least(|ids|, Capacity(b, k - 1)), Least(|ids|, Capacity(b, k)));
    }
  }

  lemma NextBatch(s: Tables, now: Time, b: nat, m: nat, n: nat)
    requires Inv(s) && m <= |DueQueue(s, now)| && n == Least(|DueQueue(s, now)|, m + b)
    ensures var before := Settle(s, ToSet(DueQueue(s, now)[..m]), Expired);
            var after := ExpireEach(before, Prefix(DueQueue(before, now), b));
            && after == Settle(s, ToSet(DueQueue(s, now)[..n]), Expired)
            && DueQueue(after, now) == DueQueue(s, now)[n..]
            && Inv(after)
  {
    hide Inv, Settle, DueQueue, ExpireEach;
    var ids := DueQueue(s, now);
    var before := Settle(s, ToSet(ids[..m]), Expired);
    QueueShrinks(s, now, m);
    SettleKeepsInv(s, ToSet(ids[..m]), Expired);
    SettleKeepsInv(s, ToSet(ids[..n]), Expired);
    var batch := Prefix(DueQueue(before, now), b);
    assert batch == ids[m..n];
    BatchListed(before, now, b);
    ExpireEachSettles(before, batch);
    SettleTwice(s, ToSet(ids[..m]), ToSet(batch), Expired);
    PrefixSplit(ids, m, n);
    QueueShrinks(s, now, n);
  }

  lemma PrefixSplit(ids: seq<Id>, m: nat, n: nat)
    requires m <= n <= |ids|
    ensures ToSet(ids[..n]) == ToSet(ids[..m]) + ToSet(ids[m..n])
  {
    assert ids[..n] == ids[..m] + ids[m..n];
  }

  /** k batches are one settlement of the first k*b overdue reservations, and the rest of the queue is what remains. */
  lemma BatchesExpirePrefix(s: Tables, now: Time, b: nat, k: nat)
    requires Inv(s) && b > 0
    ensures 0 <= k * b
    ensures AfterBatches(s, now, b, k) == Settle(s, ToSet(Prefix(DueQueue(s, now), k * b)), Expired)
    ensures DueQueue(s, now) == Prefix(DueQueue(s, now), k * b) + DueQueue(AfterBatches(s, now, b, k), now)
    ensures Inv(AfterBatches(s, now, b, k))
  {
    hide Inv, Settle, DueQueue, ExpireEach, AfterBatches;
    BatchesFold(s, now, b, k);
    CapacityIsProduct(b, k);
    var ids := DueQueue(s, now);
    assert Prefix(ids, Capacity(b, k)) == ids[..Least(|ids|, Capacity(b, k))];
  }

  /**
   After k batches of b the first k*b reserved reservations past their deadline, by (expires_at, id), or all of them
   if they are fewer, have expired with their rows and counters, and nothing else has changed.
   */
  lemma BatchesExpireEarliest(s: Tables, now: Time, b: nat, k: nat)
    requires Inv(s) && b > 0
    ensures 0 <= k * b
    ensures var first := Prefix(DueQueue(s, now), k * b);
            && FirstDue(s, {}, now, k * b, first)
            && OnlySettles(s, AfterBatches(s, now, b, k), first, Expired)
  {
    hide Constraints, Conserved, Agrees, Settle, DueQueue, OnlySettles, AfterBatches, FirstDue;
    BatchesExpirePrefix(s, now, b, k);
    BatchListed(s, now, k * b);
    PrefixEarliest(s, now, k * b);
    SettleTouches(s, Prefix(DueQueue(s, now), k * b), Expired);
  }

  /** The backlog is drained after k batches exactly when k*b covers it: ceil(n/b) batches and not one fewer. */
  lemma BatchesDrain(s: Tables, now: Time, b: nat, k: nat)
    requires Inv(s) && b > 0
    ensures (forall r :: !Takable(AfterBatches(s, now, b, k), {}, now, r))
            <==> k * b >= |set r | r in s.reservations && s.reservations[r].status == Reserved
                                   && s.reservations[r].expiresAt < now|
  {
    hide Inv, AfterBatches;
    BatchesExpirePrefix(s, now, b, k);
    var s' := AfterBatches(s, now, b, k);
    var ids := DueQueue(s', now);
    assert Overdues(s, now) == set r | r in s.reservations && s.reservations[r].status == Reserved
                                       && s.reservations[r].expiresAt < now;
    QueueLength(s, now);
    HasElement(ids);
    forall x | x in ids ensures Takable(s', {}, now, x) { }
    if r :| Takable(s', {}, now, r) { assert r in ids; }
  }

  lemma QueueLength(s: Tables, now: Time)
    ensures |DueQueue(s, now)| == |Overdues(s, now)|
  {
  }

  lemma OneMoreBatch(s: Tables, now: Time, b: nat, k: nat)
    requires Inv(s) && b > 0
    ensures var before := AfterBatches(s, now, b, k);
            var batch := Prefix(DueQueue(before, now), b);
            && Inv(before)
            && AfterBatches(s, now, b, k + 1) == ExpireEach(before, batch)
            && Least(|DueQueue(s, now)|, Capacity(b, k + 1)) == Least(|DueQueue(s, now)|, Capacity(b, k)) + |batch|
  {
    hide Inv, Settle, DueQueue, ExpireEach;
    BatchesFold(s, now, b, k);
  }

  /** The worker's loop: ProcessOnce, k times. */
  method RunBatches(service: Service, b: nat, now: Time, k: nat) returns (total: int)
    requires service.db.Valid() && Inv(service.db.Contents()) && b > 0
    modifies service.db
    ensures service.db.Valid()
    ensures service.db.Contents() == AfterBatches(old(service.db.Contents()), now, b, k)
    ensures 0 <= k * b
    ensures var s := old(service.db.Contents());
            var first := Prefix(DueQueue(s, now), k * b);
            && FirstDue(s, {}, now, k * b, first)
            && OnlySettles(s, service.db.Contents(), first, Expired)
            && total == |first|
  {
    hide Inv, Settle, DueQueue, ExpireEach, Constraints, AfterBatches, FirstDue, OnlySettles;
    ghost var s := service.db.Contents();
    total := 0;
    NoBatchYet(s, now, b);
    for n := 0 to k
      invariant service.db.Valid()
      invariant service.db.Contents() == AfterBatches(s, now, b, n)
      invariant total == Least(|DueQueue(s, now)|, Capacity(b, n))
    {
      OneMoreBatch(s, now, b, n);
      var processed, error := service.ExpireExpiredReservations(b, now);
      total := total + processed;
    }
    CapacityIsProduct(b, k);
    BatchesExpireEarliest(s, now, b, k);
  }

  lemma NoBatchYet(s: Tables, now: Time, b: nat)
    ensures AfterBatches(s, now, b, 0) == s
  {
  }
}
