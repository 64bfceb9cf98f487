/** Sums of item quantities: what the ticket counters denormalise. */
module Sums {
  import opened Schema

  /** What item i adds to a sum over the items ids for ticket type k. */
  ghost function Weight(items: map<Id, Item>, ids: set<Id>, k: Id, i: Id): int {
    if i in items && i in ids && items[i].ticketTypeId == k then items[i].quantity else 0
  }

  ghost function SumBelow(items: map<Id, Item>, ids: set<Id>, k: Id, n: nat): int {
    if n == 0 then 0 else SumBelow(items, ids, k, n - 1) + Weight(items, ids, k, n - 1)
  }

  ghost predicate Bounds(rows: set<Id>, n: nat) {
    forall i :: i in rows ==> i < n
  }

  lemma {:induction false} BoundExists(rows: set<Id>)
    ensures exists n :: Bounds(rows, n)
  {
    if rows == {} {
      assert Bounds(rows, 0);
    } else {
      var x :| x in rows;
      BoundExists(rows - {x});
      var n :| Bounds(rows - {x}, n);
      var b := if n <= x then x + 1 else n;
      forall i | i in rows ensures i < b { assert i == x || i in rows - {x}; }
      assert Bounds(rows, b);
    }
  }

  ghost function Bound(rows: set<Id>): nat
    ensures Bounds(rows, Bound(rows))
  {
    BoundExists(rows);
    var n: nat :| Bounds(rows, n);
    n
  }

  /** The quantities of the items ids for ticket type k, added up. */
  ghost function Qty(items: map<Id, Item>, ids: set<Id>, k: Id): int {
    SumBelow(items, ids, k, Bound(items.Keys))
  }

  ghost function WithStatus(items: map<Id, Item>, status: Status): set<Id> {
    set i | i in items && items[i].status == status
  }

  lemma {:induction false} SumBelowStable(items: map<Id, Item>, ids: set<Id>, k: Id, n: nat, m: nat)
    requires Bounds(items.Keys, n) && n <= m
    ensures SumBelow(items, ids, k, m) == SumBelow(items, ids, k, n)
    decreases m
  {
    if n < m {
      assert m - 1 !in items.Keys;
      SumBelowStable(items, ids, k, n, m - 1);
    }
  }

  lemma {:induction false} SumBelowUnion(items: map<Id, Item>, a: set<Id>, b: set<Id>, k: Id, n: nat)
    requires a !! b
    ensures SumBelow(items, a + b, k, n) == SumBelow(items, a, k, n) + SumBelow(items, b, k, n)
  {
    if n > 0 { SumBelowUnion(items, a, b, k, n - 1); }
  }

  lemma {:induction false} SumBelowOne(items: map<Id, Item>, x: Id, k: Id, n: nat)
    ensures SumBelow(items, {x}, k, n) == if x < n then Weight(items, {x}, k, x) else 0
  {
    if n > 0 { SumBelowOne(items, x, k, n - 1); }
  }

  lemma {:induction false} SumBelowMonotone(items: map<Id, Item>, a: set<Id>, b: set<Id>, k: Id, n: nat)
    requires a <= b
    requires forall i :: i in items && i in b ==> items[i].quantity > 0
    ensures 0 <= SumBelow(items, a, k, n) <= SumBelow(items, b, k, n)
  {
    if n > 0 { SumBelowMonotone(items, a, b, k, n - 1); }
  }

  lemma {:induction false} SumBelowSame(items: map<Id, Item>, items': map<Id, Item>, ids: set<Id>, k: Id, n: nat)
    requires forall i :: i in ids ==> Weight(items, ids, k, i) == Weight(items', ids, k, i)
    ensures SumBelow(items, ids, k, n) == SumBelow(items', ids, k, n)
  {
    if n > 0 { SumBelowSame(items, items', ids, k, n - 1); }
  }

  lemma QtyUnion(items: map<Id, Item>, a: set<Id>, b: set<Id>, k: Id)
    requires a !! b
    ensures Qty(items, a + b, k) == Qty(items, a, k) + Qty(items, b, k)
  {
    SumBelowUnion(items, a, b, k, Bound(items.Keys));
  }

  /** One more item adds its quantity to its own ticket type. */
  lemma QtyAdd(items: map<Id, Item>, ids: set<Id>, x: Id, k: Id)
    requires x in items && x !in ids
    ensures Qty(items, ids + {x}, k)
         == Qty(items, ids, k) + if items[x].ticketTypeId == k then items[x].quantity else 0
  {
    QtyUnion(items, ids, {x}, k);
    SumBelowOne(items, x, k, Bound(items.Keys));
  }

  /** Quantities are positive, so fewer items never weigh more. */
  lemma QtyMonotone(items: map<Id, Item>, a: set<Id>, b: set<Id>, k: Id)
    requires a <= b
    requires forall i :: i in items && i in b ==> items[i].quantity > 0
    ensures 0 <= Qty(items, a, k) <= Qty(items, b, k)
  {
    SumBelowMonotone(items, a, b, k, Bound(items.Keys));
  }

  /** Only the ticket type and the quantity of the items in ids matter. */
  lemma QtySame(items: map<Id, Item>, items': map<Id, Item>, ids: set<Id>, k: Id)
    requires forall i :: i in ids ==> (i in items <==> i in items')
    requires forall i :: i in ids && i in items && i in items' ==>
      items[i].ticketTypeId == items'[i].ticketTypeId && items[i].quantity == items'[i].quantity
    ensures Qty(items, ids, k) == Qty(items', ids, k)
  {
    var n, n' := Bound(items.Keys), Bound(items'.Keys);
    var m := if n < n' then n' else n;
    SumBelowStable(items, ids, k, n, m);
    SumBelowStable(items', ids, k, n', m);
    SumBelowSame(items, items', ids, k, m);
  }

  lemma QtyNone(items: map<Id, Item>, ids: set<Id>, k: Id)
    requires forall i :: i in ids && i in items ==> items[i].ticketTypeId != k
    ensures Qty(items, ids, k) == 0
  {
    SumBelowNone(items, ids, k, Bound(items.Keys));
  }

  lemma {:induction false} SumBelowNone(items: map<Id, Item>, ids: set<Id>, k: Id, n: nat)
    requires forall i :: i in ids && i in items ==> items[i].ticketTypeId != k
    ensures SumBelow(items, ids, k, n) == 0
  {
    if n > 0 { SumBelowNone(items, ids, k, n - 1); }
  }
}
