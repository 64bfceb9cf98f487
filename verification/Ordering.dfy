/** `ORDER BY key, id` over a finite set of rows. */
module Ordering {
  import opened Schema

  predicate Before(key: Id -> int, a: Id, b: Id) {
    key(a) < key(b) || (key(a) == key(b) && a < b)
  }

  /** ids lists exactly the rows of rows, each once, in the order of (key, id). */
  ghost predicate Listing(key: Id -> int, rows: set<Id>, ids: seq<Id>) {
    && (forall i :: i in ids <==> i in rows)
    && (forall j, k :: 0 <= j < k < |ids| ==> Before(key, ids[j], ids[k]))
  }

  function ToSet(ids: seq<Id>): set<Id> {
    set i | i in ids
  }

  predicate Distinct(ids: seq<Id>) {
    forall j, k :: 0 <= j < k < |ids| ==> ids[j] != ids[k]
  }

  predicate Ascending(ids: seq<Id>) {
    forall j, k :: 0 <= j < k < |ids| ==> ids[j] < ids[k]
  }

  lemma FirstExists(rows: set<Id>, key: Id -> int)
    requires rows != {}
    ensures exists a :: a in rows && forall b :: b in rows && b != a ==> Before(key, a, b)
  {
    var x :| x in rows;
    if exists b :: b in rows && b != x && !Before(key, x, b) {
      var b :| b in rows && b != x && !Before(key, x, b);
      assert b in rows - {x};
      FirstExists(rows - {x}, key);
      var a :| a in rows - {x} && forall c :: c in rows - {x} && c != a ==> Before(key, a, c);
      assert Before(key, a, x) by { assert a == b || Before(key, a, b); }
      forall c | c in rows && c != a ensures Before(key, a, c) {
        assert c == x || c in rows - {x};
      }
    }
  }

  function OrderBy(rows: set<Id>, key: Id -> int): (ids: seq<Id>)
    ensures Listing(key, rows, ids)
    ensures |ids| == |rows|
  {
    if rows == {} then []
    else
      FirstExists(rows, key);
      var a :| a in rows && forall b :: b in rows && b != a ==> Before(key, a, b);
      var rest := OrderBy(rows - {a}, key);
      ListingCons(key, rows, a, rest);
      [a] + rest
  }

  lemma ListingCons(key: Id -> int, rows: set<Id>, a: Id, rest: seq<Id>)
    requires a in rows && (forall b :: b in rows && b != a ==> Before(key, a, b))
    requires Listing(key, rows - {a}, rest)
    ensures Listing(key, rows, [a] + rest)
  {
    var ids := [a] + rest;
    forall j, k | 0 <= j < k < |ids| ensures Before(key, ids[j], ids[k]) {
      assert ids[k] == rest[k - 1] && ids[k] in rest;
      if j > 0 { assert ids[j] == rest[j - 1]; }
    }
  }

  function ById(rows: set<Id>): (ids: seq<Id>)
    ensures forall i :: i in ids <==> i in rows
    ensures |ids| == |rows|
    ensures Ascending(ids)
  {
    var ids := OrderBy(rows, i => 0);
    assert forall j, k :: 0 <= j < k < |ids| ==> Before(i => 0, ids[j], ids[k]);
    ids
  }

  lemma HasElement(ids: seq<Id>)
    ensures ids == [] || exists i :: i in ids
  {
    if ids != [] { assert ids[0] in ids; }
  }

  /** A listing is determined by its rows and the key of each. */
  lemma {:induction false} ListingUnique(key: Id -> int, key': Id -> int, rows: set<Id>, a: seq<Id>, b: seq<Id>)
    requires Listing(key, rows, a) && Listing(key', rows, b)
    requires forall i :: i in rows ==> key(i) == key'(i)
    ensures a == b
    decreases |a|
  {
    assert forall i :: i in b <==> i in a;
    if |a| == 0 {
      HasElement(b);
      assert forall i :: i !in b;
    } else {
      assert a[0] in a && a[0] in rows && a[0] in b;
      assert b[0] in b && b[0] in rows && b[0] in a;
      assert a[0] == b[0];
      ListingDrop(key, rows, a, 1);
      ListingDrop(key', rows, b, 1);
      assert ToSet(a[..1]) == {a[0]} == ToSet(b[..1]);
      ListingUnique(key, key', rows - {a[0]}, a[1..], b[1..]);
      assert a == [a[0]] + a[1..] && b == [b[0]] + b[1..];
    }
  }

  lemma ListingDistinct(key: Id -> int, rows: set<Id>, ids: seq<Id>)
    requires Listing(key, rows, ids)
    ensures Distinct(ids)
  {
    forall j, k | 0 <= j < k < |ids| ensures ids[j] != ids[k] { assert Before(key, ids[j], ids[k]); }
  }

  /** LIMIT n */
  function Prefix(ids: seq<Id>, n: nat): seq<Id> {
    if n < |ids| then ids[..n] else ids
  }

  /** Dropping a prefix of a listing lists the rows that remain. */
  lemma ListingDrop(key: Id -> int, rows: set<Id>, ids: seq<Id>, n: nat)
    requires Listing(key, rows, ids) && n <= |ids|
    ensures Listing(key, rows - ToSet(ids[..n]), ids[n..])
  {
    var rest := ids[n..];
    ListingDistinct(key, rows, ids);
    forall i ensures i in rest <==> i in rows - ToSet(ids[..n]) {
      if i in rest {
        var k :| 0 <= k < |rest| && rest[k] == i;
        assert ids[n + k] == i && i in ids;
        forall j | 0 <= j < n ensures ids[..n][j] != i {
          assert ids[j] != ids[n + k];
        }
      }
      if i in rows - ToSet(ids[..n]) {
        var k :| 0 <= k < |ids| && ids[k] == i;
        assert forall j :: 0 <= j < n ==> ids[..n][j] != i;
        assert forall j :: 0 <= j < n ==> ids[j] == ids[..n][j];
        assert rest[k - n] == i;
      }
    }
    forall j, k | 0 <= j < k < |rest| ensures Before(key, rest[j], rest[k]) {
      assert Before(key, ids[n + j], ids[n + k]);
    }
  }
}
