/** AssertConsistency: six violation queries over any tables at all, against what the six checks mean. */
module Consistency {
  import opened Schema
  import opened Ordering
  import opened Invariant
  import opened Serial
  import opened Reset

  /** Sixty seconds, in the microseconds of a timestamptz. */
  const STALE_TOLERANCE := 60_000_000

  datatype Checks = Checks(
    notOversold: bool, notNegative: bool, noDuplicateSeats: bool, noOrphanItems: bool, noOrphanSeats: bool,
    noStale: bool)

  datatype Detail =
    | NegativeQuantity(ticketTypeId: Id, total: int, sold: int, reserved: int)
    | OversoldQuantity(ticketTypeId: Id, total: int, sold: int, reserved: int)
    | DuplicateActiveSeat(seatId: Id, activeCount: nat)
    | OrphanItem(itemId: Id, reservationId: Id)
    | OrphanSeat(holdId: Id, reservationId: Id)
    | StaleReservation(reservationId: Id, expiresAt: Time)

  datatype Response = Response(ok: bool, checks: Checks, details: seq<Detail>)

  // ---------- what the checks mean ----------

  ghost predicate NotNegative(s: Tables) {
    forall k :: k in s.ticketTypes ==>
        s.ticketTypes[k].total >= 0 && s.ticketTypes[k].sold >= 0 && s.ticketTypes[k].reserved >= 0
  }

  ghost predicate NotOversold(s: Tables) {
    forall k :: k in s.ticketTypes ==> s.ticketTypes[k].sold + s.ticketTypes[k].reserved <= s.ticketTypes[k].total
  }

  ghost predicate NoOrphanItems(s: Tables) {
    forall i :: i in s.items ==> s.items[i].reservationId in s.reservations
  }

  ghost predicate NoOrphanSeats(s: Tables) {
    forall h :: h in s.holds ==> s.holds[h].reservationId in s.reservations
  }

  ghost predicate NoStale(s: Tables, now: Time) {
    forall r :: r in s.reservations && s.reservations[r].status == Reserved ==>
        now - s.reservations[r].expiresAt <= 60_000_000
  }

  ghost predicate Consistent(s: Tables, now: Time) {
    NotNegative(s) && NotOversold(s) && ActiveUnique(s) && NoOrphanItems(s) && NoOrphanSeats(s) && NoStale(s, now)
  }

  // ---------- the violation queries ----------

  function NegativeTypes(s: Tables): set<Id> {
    set k | k in s.ticketTypes
    && (s.ticketTypes[k].total < 0 || s.ticketTypes[k].sold < 0 || s.ticketTypes[k].reserved < 0)
  }

  function OversoldTypes(s: Tables): set<Id> {
    set k | k in s.ticketTypes && s.ticketTypes[k].sold + s.ticketTypes[k].reserved > s.ticketTypes[k].total
  }

  /** The int32 sum in the WHERE clause of the oversold query overflows on some row. */
  predicate SumOverflows(s: Tables) {
    exists k :: k in s.ticketTypes && !Int32(s.ticketTypes[k].sold + s.ticketTypes[k].reserved)
  }

  /** GROUP BY seat_id HAVING COUNT(*) > 1 */
  function DuplicateSeats(s: Tables): set<Id> {
    set h | h in s.holds && |ActiveHolds(s, s.holds[h].seatId)| > 1 :: s.holds[h].seatId
  }

  /** LEFT JOIN reservations ... WHERE r.id IS NULL */
  function OrphanItems(s: Tables): set<Id> {
    set i | i in s.items && s.items[i].reservationId !in s.reservations
  }

  function OrphanSeats(s: Tables): set<Id> {
    set h | h in s.holds && s.holds[h].reservationId !in s.reservations
  }

  // ---------- an empty answer is a passed check ----------

  lemma TwoElements(rows: set<Id>)
    ensures |rows| > 1 <==> exists g, h :: g in rows && h in rows && g != h
  {
    if |rows| > 1 {
      var g :| g in rows;
      assert |rows - {g}| > 0;
      var h :| h in rows - {g};
    }
    if g, h :| g in rows && h in rows && g != h {
      assert {g, h} <= rows;
      assert rows == {g, h} + (rows - {g, h});
    }
  }

  lemma NoDuplicatesMeansUnique(s: Tables)
    ensures DuplicateSeats(s) == {} <==> ActiveUnique(s)
  {
    if DuplicateSeats(s) == {} {
      forall g, h, seat | ActiveOn(s, g, seat) && ActiveOn(s, h, seat) ensures g == h {
        assert s.holds[g].seatId !in DuplicateSeats(s);
        TwoElements(ActiveHolds(s, seat));
        assert g in ActiveHolds(s, seat) && h in ActiveHolds(s, seat);
      }
    }
    if ActiveUnique(s) {
      forall h | h in s.holds ensures |ActiveHolds(s, s.holds[h].seatId)| <= 1 {
        var seat := s.holds[h].seatId;
        TwoElements(ActiveHolds(s, seat));
      }
    }
  }

  lemma EmptyMeansPassed(s: Tables, now: Time)
    ensures NegativeTypes(s) == {} <==> NotNegative(s)
    ensures OversoldTypes(s) == {} <==> NotOversold(s)
    ensures OrphanItems(s) == {} <==> NoOrphanItems(s)
    ensures OrphanSeats(s) == {} <==> NoOrphanSeats(s)
    ensures Overdues(s, now - STALE_TOLERANCE) == {} <==> NoStale(s, now)
  {
    assert forall k :: k in s.ticketTypes ==>
        (k !in NegativeTypes(s) <==>
         s.ticketTypes[k].total >= 0 && s.ticketTypes[k].sold >= 0 && s.ticketTypes[k].reserved >= 0);
    assert forall k :: k in s.ticketTypes ==>
        (k !in OversoldTypes(s) <==> s.ticketTypes[k].sold + s.ticketTypes[k].reserved <= s.ticketTypes[k].total);
    assert forall i :: i in s.items ==> (i !in OrphanItems(s) <==> s.items[i].reservationId in s.reservations);
    assert forall h :: h in s.holds ==> (h !in OrphanSeats(s) <==> s.holds[h].reservationId in s.reservations);
    assert forall r :: r in s.reservations && s.reservations[r].status == Reserved ==>
        (r !in Overdues(s, now - STALE_TOLERANCE) <==> s.reservations[r].expiresAt >= now - STALE_TOLERANCE);
  }

  /** So many holds of the seat are reserved or confirmed, and that is more than one. */
  ghost predicate Duplicated(s: Tables, seat: Id, count: nat) {
    count == |set h | h in s.holds && s.holds[h].seatId == seat
                      && (s.holds[h].status == Reserved || s.holds[h].status == Confirmed)| > 1
  }

  /** A detail names a row that breaks the check it is about, with the values stored in that row. */
  ghost predicate Reports(s: Tables, now: Time, d: Detail) {
    match d
    case NegativeQuantity(k, total, sold, reserved) =>
      && k in s.ticketTypes && s.ticketTypes[k].total == total && s.ticketTypes[k].sold == sold
      && s.ticketTypes[k].reserved == reserved && (total < 0 || sold < 0 || reserved < 0)
    case OversoldQuantity(k, total, sold, reserved) =>
      && k in s.ticketTypes && s.ticketTypes[k].total == total && s.ticketTypes[k].sold == sold
      && s.ticketTypes[k].reserved == reserved && sold + reserved > total
    case DuplicateActiveSeat(seat, count) => Duplicated(s, seat, count)
    case OrphanItem(i, r) => i in s.items && s.items[i].reservationId == r && r !in s.reservations
    case OrphanSeat(h, r) => h in s.holds && s.holds[h].reservationId == r && r !in s.reservations
    case StaleReservation(r, expiresAt) =>
      && r in s.reservations && s.reservations[r].status == Reserved && s.reservations[r].expiresAt == expiresAt
      && now - expiresAt > 60_000_000
  }

  // ---------- the order of the details ----------

  function Rank(d: Detail): nat {
    match d
    case NegativeQuantity(_, _, _, _) => 0
    case OversoldQuantity(_, _, _, _) => 1
    case DuplicateActiveSeat(_, _) => 2
    case OrphanItem(_, _) => 3
    case OrphanSeat(_, _) => 4
    case StaleReservation(_, _) => 5
  }

  function RowId(d: Detail): Id {
    match d
    case NegativeQuantity(k, _, _, _) => k
    case OversoldQuantity(k, _, _, _) => k
    case DuplicateActiveSeat(seat, _) => seat
    case OrphanItem(i, _) => i
    case OrphanSeat(h, _) => h
    case StaleReservation(r, _) => r
  }

  /** Check by check, and within a check by id, stale reservations by deadline first. */
  predicate DetailBefore(a: Detail, b: Detail) {
    if a.StaleReservation? && b.StaleReservation? then
      a.expiresAt < b.expiresAt || (a.expiresAt == b.expiresAt && a.reservationId < b.reservationId)
    else Rank(a) < Rank(b) || (Rank(a) == Rank(b) && RowId(a) < RowId(b))
  }

  /** Each detail comes strictly after the one before it, so that none is there twice. */
  ghost predicate InOrder(details: seq<Detail>) {
    forall j, k :: 0 <= j < k < |details| ==> DetailBefore(details[j], details[k])
  }

  predicate Passed(checks: Checks) {
    checks.notOversold && checks.notNegative && checks.noDuplicateSeats && checks.noOrphanItems && checks.noOrphanSeats
    && checks.noStale
  }

  function Described(ids: seq<Id>, describe: Id -> Detail): (details: seq<Detail>)
    ensures |details| == |ids| && forall j :: 0 <= j < |ids| ==> details[j] == describe(ids[j])
  {
    seq(|ids|, j requires 0 <= j < |ids| => describe(ids[j]))
  }

  /** One check: it passes when its query has no rows, and otherwise each row is reported. */
  method Record(details: seq<Detail>, ids: seq<Id>, describe: Id -> Detail) returns (passed: bool, more: seq<Detail>)
    ensures passed <==> |ids| == 0
    ensures more == details + Described(ids, describe)
  {
    passed, more := true, details;
    if |ids| > 0 {
      passed := false;
      for n := 0 to |ids|
        invariant more == details + Described(ids, describe)[..n]
      {
        more := more + [describe(ids[n])];
      }
    }
  }

  function DescribeNegative(s: Tables): Id -> Detail {
    (k: Id) =>
      if k in s.ticketTypes then
        NegativeQuantity(k, s.ticketTypes[k].total, s.ticketTypes[k].sold, s.ticketTypes[k].reserved)
      else NegativeQuantity(k, 0, 0, 0)
  }

  function DescribeOversold(s: Tables): Id -> Detail {
    (k: Id) =>
      if k in s.ticketTypes then
        OversoldQuantity(k, s.ticketTypes[k].total, s.ticketTypes[k].sold, s.ticketTypes[k].reserved)
      else OversoldQuantity(k, 0, 0, 0)
  }

  function DescribeDuplicate(s: Tables): Id -> Detail {
    (seat: Id) => DuplicateActiveSeat(seat, |ActiveHolds(s, seat)|)
  }

  function DescribeOrphanItem(s: Tables): Id -> Detail {
    (i: Id) => OrphanItem(i, if i in s.items then s.items[i].reservationId else 0)
  }

  function DescribeOrphanSeat(s: Tables): Id -> Detail {
    (h: Id) => OrphanSeat(h, if h in s.holds then s.holds[h].reservationId else 0)
  }

  function DescribeStale(s: Tables): Id -> Detail {
    (r: Id) => StaleReservation(r, Deadlines(s)(r))
  }

  /** The six answers, each in the order its query gives. */
  function AllDetails(s: Tables, now: Time): seq<Detail> {
    var stale := Overdues(s, now - STALE_TOLERANCE);
    Described(ById(NegativeTypes(s)), DescribeNegative(s)) + Described(ById(OversoldTypes(s)), DescribeOversold(s))
    + Described(ById(DuplicateSeats(s)), DescribeDuplicate(s)) + Described(ById(OrphanItems(s)), DescribeOrphanItem(s))
    + Described(ById(OrphanSeats(s)), DescribeOrphanSeat(s)) + Described(OrderBy(stale, Deadlines(s)), DescribeStale(s))
  }

  lemma DescribedHas(ids: seq<Id>, describe: Id -> Detail, d: Detail)
    ensures d in Described(ids, describe) <==> exists x :: x in ids && describe(x) == d
  {
    var all := Described(ids, describe);
    if d in all {
      var j :| 0 <= j < |all| && all[j] == d;
      assert ids[j] in ids && describe(ids[j]) == d;
    }
    if x :| x in ids && describe(x) == d {
      var j :| 0 <= j < |ids| && ids[j] == x;
      assert all[j] == d;
    }
  }

  lemma QuantityDetails(s: Tables, now: Time, d: Detail)
    ensures d in Described(ById(NegativeTypes(s)), DescribeNegative(s)) <==> d.NegativeQuantity? && Reports(s, now, d)
    ensures d in Described(ById(OversoldTypes(s)), DescribeOversold(s)) <==> d.OversoldQuantity? && Reports(s, now, d)
  {
    hide Described, Duplicated;
    DescribedHas(ById(NegativeTypes(s)), DescribeNegative(s), d);
    DescribedHas(ById(OversoldTypes(s)), DescribeOversold(s), d);
    if d.NegativeQuantity? {
      assert d.ticketTypeId in NegativeTypes(s) ==> DescribeNegative(s)(d.ticketTypeId).ticketTypeId == d.ticketTypeId;
    }
    if d.OversoldQuantity? {
      assert d.ticketTypeId in OversoldTypes(s) ==> DescribeOversold(s)(d.ticketTypeId).ticketTypeId == d.ticketTypeId;
    }
  }

  lemma ActiveAre(s: Tables, seat: Id)
    ensures forall count :: Duplicated(s, seat, count) <==> seat in DuplicateSeats(s) && count == |ActiveHolds(s, seat)|
  {
    assert ActiveHolds(s, seat)
           == set h | h in s.holds && s.holds[h].seatId == seat
                      && (s.holds[h].status == Reserved || s.holds[h].status == Confirmed);
    if |ActiveHolds(s, seat)| > 1 { var h :| h in ActiveHolds(s, seat); }
  }

  lemma DuplicateDetails(s: Tables, now: Time, d: Detail)
    ensures d in Described(ById(DuplicateSeats(s)), DescribeDuplicate(s))
            <==> d.DuplicateActiveSeat? && Reports(s, now, d)
  {
    hide Described, DuplicateSeats, ActiveHolds, Duplicated;
    DescribedHas(ById(DuplicateSeats(s)), DescribeDuplicate(s), d);
    if d.DuplicateActiveSeat? {
      ActiveAre(s, d.seatId);
      assert DescribeDuplicate(s)(d.seatId).seatId == d.seatId;
    }
  }

  lemma StaleDetails(s: Tables, now: Time, d: Detail)
    ensures d in Described(OrderBy(Overdues(s, now - STALE_TOLERANCE), Deadlines(s)), DescribeStale(s))
            <==> d.StaleReservation? && Reports(s, now, d)
  {
    hide Described, Duplicated;
    DescribedHas(OrderBy(Overdues(s, now - STALE_TOLERANCE), Deadlines(s)), DescribeStale(s), d);
    if d.StaleReservation? { assert DescribeStale(s)(d.reservationId).reservationId == d.reservationId; }
  }

  lemma OrphanItemDetails(s: Tables, now: Time, d: Detail)
    ensures d in Described(ById(OrphanItems(s)), DescribeOrphanItem(s)) <==> d.OrphanItem? && Reports(s, now, d)
  {
    hide Described, Duplicated;
    DescribedHas(ById(OrphanItems(s)), DescribeOrphanItem(s), d);
    if d.OrphanItem? { assert DescribeOrphanItem(s)(d.itemId).itemId == d.itemId; }
  }

  lemma OrphanSeatDetails(s: Tables, now: Time, d: Detail)
    ensures d in Described(ById(OrphanSeats(s)), DescribeOrphanSeat(s)) <==> d.OrphanSeat? && Reports(s, now, d)
  {
    hide Described, Duplicated;
    DescribedHas(ById(OrphanSeats(s)), DescribeOrphanSeat(s), d);
    if d.OrphanSeat? { assert DescribeOrphanSeat(s)(d.holdId).holdId == d.holdId; }
  }

  /** The answers of check n, described one by one, come after those of the checks before it. */
  lemma AppendInOrder(details: seq<Detail>, ids: seq<Id>, describe: Id -> Detail, n: nat)
    requires InOrder(details) && forall d :: d in details ==> Rank(d) < n
    requires Ascending(ids) && n < 5 && DescribesCheck(describe, n)
    ensures InOrder(details + Described(ids, describe))
    ensures forall d :: d in details + Described(ids, describe) ==> Rank(d) < n + 1
  {
    var more := Described(ids, describe);
    forall j, k | 0 <= j < k < |details + more| ensures DetailBefore((details + more)[j], (details + more)[k]) {
      if j < |details| { assert details[j] in details; }
    }
  }

  lemma AppendStale(details: seq<Detail>, s: Tables, rows: set<Id>, ids: seq<Id>)
    requires InOrder(details) && forall d :: d in details ==> Rank(d) < 5
    requires Listing(Deadlines(s), rows, ids)
    ensures InOrder(details + Described(ids, DescribeStale(s)))
  {
    var more := Described(ids, DescribeStale(s));
    forall j, k | 0 <= j < k < |details + more| ensures DetailBefore((details + more)[j], (details + more)[k]) {
      if j < |details| { assert details[j] in details; }
      else { assert Before(Deadlines(s), ids[j - |details|], ids[k - |details|]); }
    }
  }

  /** The described row is the row of the answer, under its check. */
  ghost predicate DescribesCheck(describe: Id -> Detail, n: nat) {
    forall x :: Rank(describe(x)) == n && RowId(describe(x)) == x
  }

  lemma ChecksDescribed(s: Tables)
    ensures DescribesCheck(DescribeNegative(s), 0) && DescribesCheck(DescribeOversold(s), 1)
    ensures DescribesCheck(DescribeDuplicate(s), 2)
    ensures DescribesCheck(DescribeOrphanItem(s), 3) && DescribesCheck(DescribeOrphanSeat(s), 4)
  {
    hide ActiveHolds;
  }

  lemma DetailsInOrder(s: Tables, now: Time)
    ensures InOrder(AllDetails(s, now))
  {
    hide *;
    NoDetails();
    ChecksDescribed(s);
    var negative := [] + Described(ById(NegativeTypes(s)), DescribeNegative(s));
    AppendInOrder([], ById(NegativeTypes(s)), DescribeNegative(s), 0);
    var oversold := negative + Described(ById(OversoldTypes(s)), DescribeOversold(s));
    AppendInOrder(negative, ById(OversoldTypes(s)), DescribeOversold(s), 1);
    var duplicates := oversold + Described(ById(DuplicateSeats(s)), DescribeDuplicate(s));
    AppendInOrder(oversold, ById(DuplicateSeats(s)), DescribeDuplicate(s), 2);
    var items := duplicates + Described(ById(OrphanItems(s)), DescribeOrphanItem(s));
    AppendInOrder(duplicates, ById(OrphanItems(s)), DescribeOrphanItem(s), 3);
    var seats := items + Described(ById(OrphanSeats(s)), DescribeOrphanSeat(s));
    AppendInOrder(items, ById(OrphanSeats(s)), DescribeOrphanSeat(s), 4);
    var stale := Overdues(s, now - STALE_TOLERANCE);
    AppendStale(seats, s, stale, OrderBy(stale, Deadlines(s)));
    RecordedInOrder(s, now);
  }

  lemma NoDetails()
    ensures InOrder([])
  {
  }

  /** The details report every violation, once, and nothing else. */
  lemma DetailsAreTheViolations(s: Tables, now: Time)
    ensures forall d :: d in AllDetails(s, now) <==> Reports(s, now, d)
    ensures InOrder(AllDetails(s, now))
  {
    hide OversoldTypes, NegativeTypes, DuplicateSeats, OrphanItems, OrphanSeats, Overdues, ActiveHolds;
    hide Reports, InOrder;
    forall d ensures d in AllDetails(s, now) <==> Reports(s, now, d) {
      QuantityDetails(s, now, d);
      DuplicateDetails(s, now, d);
      StaleDetails(s, now, d);
      OrphanItemDetails(s, now, d);
      OrphanSeatDetails(s, now, d);
    }
    DetailsInOrder(s, now);
  }

  lemma RecordedInOrder(s: Tables, now: Time)
    ensures AllDetails(s, now) == []
            + Described(ById(NegativeTypes(s)), DescribeNegative(s))
            + Described(ById(OversoldTypes(s)), DescribeOversold(s))
            + Described(ById(DuplicateSeats(s)), DescribeDuplicate(s))
            + Described(ById(OrphanItems(s)), DescribeOrphanItem(s))
            + Described(ById(OrphanSeats(s)), DescribeOrphanSeat(s))
            + Described(OrderBy(Overdues(s, now - STALE_TOLERANCE), Deadlines(s)), DescribeStale(s))
  {
    assert [] + Described(ById(NegativeTypes(s)), DescribeNegative(s))
           == Described(ById(NegativeTypes(s)), DescribeNegative(s));
  }

  lemma NothingToReport(s: Tables, now: Time)
    ensures AllDetails(s, now) == [] <==>
              OversoldTypes(s) == {} && NegativeTypes(s) == {} && DuplicateSeats(s) == {} && OrphanItems(s) == {}
              && OrphanSeats(s) == {} && Overdues(s, now - STALE_TOLERANCE) == {}
  {
    hide OversoldTypes, NegativeTypes, DuplicateSeats, OrphanItems, OrphanSeats, Overdues;
  }

  /** OK says exactly that all six invariants hold, which is exactly that there is nothing to report. */
  lemma OkMeansConsistent(s: Tables, now: Time, r: Response)
    requires r.details == AllDetails(s, now) && r.ok == Passed(r.checks)
    requires r.checks == Checks(OversoldTypes(s) == {}, NegativeTypes(s) == {}, DuplicateSeats(s) == {},
                                OrphanItems(s) == {}, OrphanSeats(s) == {}, Overdues(s, now - STALE_TOLERANCE) == {})
    ensures r.checks == Checks(NotOversold(s), NotNegative(s), ActiveUnique(s), NoOrphanItems(s), NoOrphanSeats(s),
                               NoStale(s, now))
    ensures r.ok <==> Consistent(s, now)
    ensures r.ok <==> r.details == []
  {
    hide OversoldTypes, NegativeTypes, DuplicateSeats, OrphanItems, OrphanSeats, Overdues, AllDetails;
    EmptyMeansPassed(s, now);
    NoDuplicatesMeansUnique(s);
    NothingToReport(s, now);
  }

  /** In every reachable state no query fails and five checks hold; OK then is the stale-hold check alone. */
  lemma ReachableStatesPass(s: Tables, now: Time)
    requires Inv(s)
    ensures !SumOverflows(s)
    ensures NotNegative(s) && NotOversold(s) && ActiveUnique(s) && NoOrphanItems(s) && NoOrphanSeats(s)
    ensures Consistent(s, now) <==> NoStale(s, now)
  {
  }

  /**
   Service.AssertConsistency, over any tables. Outside the three local environments it is refused; it fails
   exactly when the int32 sum of the oversold query overflows; and otherwise every flag says whether its invariant
   holds, and the details are the violations, each once.
   */
  method AssertConsistency(s: Tables, appEnv: string, now: Time) returns (r: AdminResult<Response>)
    ensures appEnv !in {"development", "local", "test"} <==> r == StressAdminDisabled
    ensures r == QueryFailed <==>
              && appEnv in {"development", "local", "test"}
              && exists k :: k in s.ticketTypes
                             && !(-0x8000_0000 <= s.ticketTypes[k].sold + s.ticketTypes[k].reserved <= 0x7FFF_FFFF)
    ensures r.Answer? ==>
              && (forall d :: d in r.value.details <==> Reports(s, now, d)) && InOrder(r.value.details)
              && r.value.checks == Checks(NotOversold(s), NotNegative(s), ActiveUnique(s), NoOrphanItems(s),
                                          NoOrphanSeats(s), NoStale(s, now))
              && (r.value.ok <==> Consistent(s, now))
              && (r.value.ok <==> r.value.details == [])
    ensures Inv(s) && r.Answer? ==>
              r.value.checks == Checks(true, true, true, true, true, NoStale(s, now)) && r.value.ok == NoStale(s, now)
    ensures Inv(s) ==> r != QueryFailed
  {
    hide *;
    EnvironmentsAre(appEnv);
    OverflowIs(s);
    if !IsLocal(appEnv) { return StressAdminDisabled; }
    if Inv(s) { ReachableStatesPass(s, now); }
    var negative, details := Record([], ById(NegativeTypes(s)), DescribeNegative(s));
    if SumOverflows(s) { return QueryFailed; }
    var oversold, duplicates, orphanItems, orphanSeats, stale;
    oversold, details := Record(details, ById(OversoldTypes(s)), DescribeOversold(s));
    duplicates, details := Record(details, ById(DuplicateSeats(s)), DescribeDuplicate(s));
    orphanItems, details := Record(details, ById(OrphanItems(s)), DescribeOrphanItem(s));
    orphanSeats, details := Record(details, ById(OrphanSeats(s)), DescribeOrphanSeat(s));
    stale, details := Record(details, OrderBy(Overdues(s, now - STALE_TOLERANCE), Deadlines(s)), DescribeStale(s));
    RecordedInOrder(s, now);
    DetailsAreTheViolations(s, now);
    var checks := Checks(oversold, negative, duplicates, orphanItems, orphanSeats, stale);
    r := Answer(Response(Passed(checks), checks, details));
    OkMeansConsistent(s, now, r.value);
  }

  lemma EnvironmentsAre(appEnv: string)
    ensures IsLocal(appEnv) <==> appEnv in {"development", "local", "test"}
  {
  }

  lemma OverflowIs(s: Tables)
    ensures SumOverflows(s) <==>
              exists k :: k in s.ticketTypes
                          && !(-0x8000_0000 <= s.ticketTypes[k].sold + s.ticketTypes[k].reserved <= 0x7FFF_FFFF)
  {
  }
}
