/** Resetting stress fixtures: the dependency-ordered delete, and which events its LIKE pattern really selects. */
module Reset {
  import opened Schema
  import opened Ordering
  import opened Sums
  import opened Invariant
  import opened Queries
  import opened Like

  const STRESS_EVENT_PREFIX := "__stress_seed__:"

  datatype AdminResult<+T> = Answer(value: T) | StressAdminDisabled | QueryFailed

  predicate IsLocal(appEnv: string) {
    appEnv == "development" || appEnv == "local" || appEnv == "test"
  }

  // ---------- what a reset leaves ----------

  /** The tables without the events es and everything that belongs to them. */
  function Without(s: Tables, es: set<Id>): Tables {
    Tables(s.events - es, s.ticketTypes - TypesIn(s, es), s.seats - SeatsIn(s, es),
           s.reservations - ReservationsIn(s, es), s.items - ItemsIn(s, es), s.holds - HoldsIn(s, es))
  }

  /** No item or hold reaches out of its reservation's event into es. */
  ghost predicate Contained(s: Tables, es: set<Id>) {
    && (forall i :: i in s.items && s.items[i].ticketTypeId in TypesIn(s, es) ==> i in ItemsIn(s, es))
    && (forall h :: h in s.holds && s.holds[h].seatId in SeatsIn(s, es) ==> h in HoldsIn(s, es))
  }

  lemma InvContains(s: Tables, es: set<Id>)
    requires Inv(s)
    ensures Contained(s, es)
  {
    forall i | i in s.items && s.items[i].ticketTypeId in TypesIn(s, es)
      ensures i in ItemsIn(s, es) { assert ItemAgrees(s, s.items[i]); }
    forall h | h in s.holds && s.holds[h].seatId in SeatsIn(s, es)
      ensures h in HoldsIn(s, es) { assert HoldAgrees(s, s.holds[h]); }
  }

  lemma KeptAndGone(s: Tables, es: set<Id>, status: Status)
    ensures WithStatus(s.items, status)
            == WithStatus(Without(s, es).items, status) + WithStatus(s.items, status) * ItemsIn(s, es)
  {
  }

  /** A surviving counter loses none of its items. */
  lemma WithoutKeepsQty(s: Tables, es: set<Id>, status: Status, k: Id)
    requires Agrees(s) && k in s.ticketTypes && s.ticketTypes[k].eventId !in es
    ensures Qty(Without(s, es).items, WithStatus(Without(s, es).items, status), k)
            == Qty(s.items, WithStatus(s.items, status), k)
  {
    var s' := Without(s, es);
    var kept, gone := WithStatus(s'.items, status), WithStatus(s.items, status) * ItemsIn(s, es);
    KeptAndGone(s, es, status);
    QtyUnion(s.items, kept, gone, k);
    forall i | i in gone && i in s.items ensures s.items[i].ticketTypeId != k { assert ItemAgrees(s, s.items[i]); }
    QtyNone(s.items, gone, k);
    QtySame(s.items, s'.items, kept, k);
  }

  lemma WithoutConserves(s: Tables, es: set<Id>)
    requires Inv(s)
    ensures Conserved(Without(s, es))
  {
    var s' := Without(s, es);
    forall k | k in s'.ticketTypes
      ensures s'.ticketTypes[k].reserved == Qty(s'.items, WithStatus(s'.items, Reserved), k)
      ensures s'.ticketTypes[k].sold == Qty(s'.items, WithStatus(s'.items, Confirmed), k)
    {
      WithoutKeepsQty(s, es, Reserved, k);
      WithoutKeepsQty(s, es, Confirmed, k);
    }
  }

  lemma WithoutItemsAgree(s: Tables, es: set<Id>, i: Id)
    requires Inv(s) && i in Without(s, es).items
    ensures ItemAgrees(Without(s, es), s.items[i])
  {
    assert ItemAgrees(s, s.items[i]);
  }

  lemma WithoutHoldsAgree(s: Tables, es: set<Id>, h: Id)
    requires Inv(s) && h in Without(s, es).holds
    ensures HoldAgrees(Without(s, es), s.holds[h])
  {
    assert HoldAgrees(s, s.holds[h]);
  }

  lemma WithoutAgrees(s: Tables, es: set<Id>)
    requires Inv(s)
    ensures Agrees(Without(s, es))
  {
    var s' := Without(s, es);
    forall i | i in s'.items ensures ItemAgrees(s', s'.items[i]) { WithoutItemsAgree(s, es, i); }
    forall h | h in s'.holds ensures HoldAgrees(s', s'.holds[h]) { WithoutHoldsAgree(s, es, h); }
    forall r | r in s'.reservations
      ensures if s'.reservations[r].kind == Quantity then HasItem(s', r) else HasHold(s', r)
    {
      if s.reservations[r].kind == Quantity {
        var i :| i in s.items && s.items[i].reservationId == r;
        assert i in s'.items && s'.items[i].reservationId == r;
      } else {
        var h :| h in s.holds && s.holds[h].reservationId == r;
        assert h in s'.holds && s'.holds[h].reservationId == r;
      }
    }
  }

  /** Whatever is still there is as it was. */
  ghost predicate Unchanged(s: Tables, s': Tables) {
    && (forall e :: e in s'.events ==> e in s.events && s'.events[e] == s.events[e])
    && (forall k :: k in s'.ticketTypes ==> k in s.ticketTypes && s'.ticketTypes[k] == s.ticketTypes[k])
    && (forall k :: k in s'.seats ==> k in s.seats && s'.seats[k] == s.seats[k])
    && (forall r :: r in s'.reservations ==> r in s.reservations && s'.reservations[r] == s.reservations[r])
    && (forall i :: i in s'.items ==> i in s.items && s'.items[i] == s.items[i])
    && (forall h :: h in s'.holds ==> h in s.holds && s'.holds[h] == s.holds[h])
  }

  /** A row of any table survives, unchanged, exactly when the event it belongs to was not selected. */
  lemma ResetRemovesExactly(s: Tables, es: set<Id>)
    requires Inv(s)
    ensures var s' := Without(s, es);
            && (forall e :: e in s'.events <==> e in s.events && e !in es)
            && (forall r :: r in s'.reservations <==> r in s.reservations && s.reservations[r].eventId !in es)
            && (forall k :: k in s'.ticketTypes <==> k in s.ticketTypes && s.ticketTypes[k].eventId !in es)
            && (forall k :: k in s'.seats <==> k in s.seats && s.seats[k].eventId !in es)
            && (forall i :: i in s'.items <==> i in s.items && s.ticketTypes[s.items[i].ticketTypeId].eventId !in es)
            && (forall h :: h in s'.holds <==> h in s.holds && s.seats[s.holds[h].seatId].eventId !in es)
            && Unchanged(s, s')
  {
    forall i | i in s.items ensures ItemAgrees(s, s.items[i]) { }
    forall h | h in s.holds ensures HoldAgrees(s, s.holds[h]) { }
  }

  // ---------- the delete ----------

  /** The state the events are deleted from: their reservations are gone already, children first. */
  function WithoutReservations(s: Tables, es: set<Id>): Tables {
    s.(reservations := s.reservations - ReservationsIn(s, es), items := s.items - ItemsIn(s, es),
       holds := s.holds - HoldsIn(s, es))
  }

  /** Once the reservations are gone, only a row that reached across events can stop the event delete. */
  lemma RestrictMeansEscape(s: Tables, es: set<Id>)
    ensures Restricted(WithoutReservations(s, es), es) <==> !Contained(s, es)
  {
    var t := WithoutReservations(s, es);
    assert ReservationsIn(t, es) == {};
    assert TypesIn(t, es) == TypesIn(s, es) && SeatsIn(t, es) == SeatsIn(s, es);
    if !Contained(s, es) {
      if i :| i in s.items && s.items[i].ticketTypeId in TypesIn(s, es) && i !in ItemsIn(s, es) {
        assert i in t.items;
      } else {
        var h :| h in s.holds && s.holds[h].seatId in SeatsIn(s, es) && h !in HoldsIn(s, es);
        assert h in t.holds;
      }
    }
  }

  lemma DeletedInOrder(s: Tables, es: set<Id>)
    ensures var s1 := s.(holds := s.holds - HoldsIn(s, es));
            var s2 := s1.(items := s1.items - ItemsIn(s1, es));
            && s2.reservations - ReservationsIn(s2, es) == s.reservations - ReservationsIn(s, es)
            && s2.items - ItemsIn(s2, es) == s.items - ItemsIn(s, es)
            && s2.holds - HoldsIn(s2, es) == s.holds - HoldsIn(s, es)
  {
  }

  lemma EventsDeleted(s: Tables, es: set<Id>)
    ensures EventCount(WithoutReservations(s, es), es) == EventCount(s, es)
    ensures var t := WithoutReservations(s, es);
            t.(events := t.events - es, ticketTypes := t.ticketTypes - TypesIn(t, es),
               seats := t.seats - SeatsIn(t, es)) == Without(s, es)
  {
    assert TypesIn(WithoutReservations(s, es), es) == TypesIn(s, es);
    assert SeatsIn(WithoutReservations(s, es), es) == SeatsIn(s, es);
  }

  /** What is left keeps every law: counters equal their items, headers agree with children, constraints hold. */
  lemma WithoutKeepsInv(s: Tables, es: set<Id>)
    requires Inv(s)
    ensures Inv(Without(s, es))
  {
    hide TypesIn, SeatsIn, ReservationsIn, ItemsIn, HoldsIn, Restricted, Contained, Without;
    WithoutConserves(s, es);
    WithoutAgrees(s, es);
    InvContains(s, es);
    RestrictMeansEscape(s, es);
    EventsDeleted(s, es);
    DroppedHeadersKeep(s, es);
    DroppedEventsKeep(WithoutReservations(s, es), es);
  }

  /** Repository.Reset. QueryFailed is a violated RESTRICT, and rolls back. */
  method DeleteFixtures(db: Database, pattern: string) returns (r: AdminResult<nat>)
    requires db.Valid()
    modifies db
    ensures db.Valid()
    ensures var s, es := old(db.Contents()), EventsLike(old(db.Contents()), pattern);
            if es == {} || Contained(s, es) then r == Answer(|es|) && db.Contents() == Without(s, es)
            else r == QueryFailed && db.Contents() == s
  {
    hide TypesIn, SeatsIn, ReservationsIn, ItemsIn, HoldsIn, Restricted, Contained, Constraints, EventsLike, Without;
    hide EventCount;
    var s := db.Contents();
    var eventIds := db.ListStressEventIDs(pattern);
    ghost var es := EventsLike(s, pattern);
    assert ToSet(eventIds) == es;
    if |eventIds| == 0 {
      NothingSelected(s, es);
      return Answer(0);
    }
    DeleteReservations(db, eventIds);
    RestrictMeansEscape(s, es);
    EventsDeleted(s, es);
    var deleted := db.DeleteStressEvents(eventIds);
    if deleted.None? {
      db.Rollback(s);
      return QueryFailed;
    }
    SelectedExist(s, pattern);
    return Answer(deleted.value);
  }

  lemma SelectedExist(s: Tables, pattern: string)
    ensures EventCount(s, EventsLike(s, pattern)) == |EventsLike(s, pattern)|
  {
    assert s.events.Keys * EventsLike(s, pattern) == EventsLike(s, pattern);
  }

  method DeleteReservations(db: Database, eventIds: seq<Id>)
    requires db.Valid()
    modifies db`holds, db`items, db`reservations
    ensures db.Valid() && db.Contents() == WithoutReservations(old(db.Contents()), ToSet(eventIds))
  {
    hide ReservationsIn, ItemsIn, HoldsIn, Constraints, ToSet;
    ghost var s := db.Contents();
    db.DeleteStressReservationSeats(eventIds);
    db.DeleteStressReservationItems(eventIds);
    db.DeleteStressReservations(eventIds);
    DeletedInOrder(s, ToSet(eventIds));
  }

  lemma NothingSelected(s: Tables, es: set<Id>)
    requires es == {}
    ensures Without(s, es) == s
  {
    assert s.events - es == s.events;
    assert s.ticketTypes - TypesIn(s, es) == s.ticketTypes;
    assert s.seats - SeatsIn(s, es) == s.seats;
    assert s.reservations - ReservationsIn(s, es) == s.reservations;
    assert s.items - ItemsIn(s, es) == s.items;
    assert s.holds - HoldsIn(s, es) == s.holds;
  }

  /** Service.Reset: from a reachable state it never meets a RESTRICT, and leaves a reachable-style state. */
  method ResetFixtures(db: Database, appEnv: string) returns (r: AdminResult<nat>)
    requires db.Valid()
    modifies db
    ensures db.Valid()
    ensures appEnv !in {"development", "local", "test"} ==>
              r == StressAdminDisabled && db.Contents() == old(db.Contents())
    ensures appEnv in {"development", "local", "test"} ==>
              var s, es := old(db.Contents()), EventsLike(old(db.Contents()), STRESS_EVENT_PREFIX + "%");
              && (if es == {} || Contained(s, es) then r == Answer(|es|) && db.Contents() == Without(s, es)
                  else r == QueryFailed && db.Contents() == s)
              && (Inv(s) ==> r == Answer(|es|) && Inv(db.Contents()))
  {
    if !IsLocal(appEnv) { return StressAdminDisabled; }
    ghost var s := db.Contents();
    r := DeleteFixtures(db, STRESS_EVENT_PREFIX + "%");
    if Inv(s) {
      InvContains(s, EventsLike(s, STRESS_EVENT_PREFIX + "%"));
      WithoutKeepsInv(s, EventsLike(s, STRESS_EVENT_PREFIX + "%"));
    }
  }

  // ---------- which events are selected ----------

  /** The name carries the reserved prefix. */
  predicate HasPrefix(name: string) {
    |name| >= 16 && name[..16] == STRESS_EVENT_PREFIX
  }

  /** The name has the letters of the prefix, but not an underscore in all five of its places. */
  predicate LooksReserved(name: string) {
    && |name| >= 16
    && name[2..8] == "stress" && name[9..13] == "seed" && name[15] == ':'
    && !(name[0] == '_' && name[1] == '_' && name[8] == '_' && name[13] == '_' && name[14] == '_')
  }

  /** Two slices are equal when they agree place by place. */
  lemma SliceEqual(a: string, b: string, lo: nat, hi: nat)
    requires lo <= hi <= |a| && hi <= |b|
    ensures a[lo..hi] == b[lo..hi] <==> forall k :: lo <= k < hi ==> a[k] == b[k]
  {
    if a[lo..hi] == b[lo..hi] {
      forall k | lo <= k < hi ensures a[k] == b[k] { assert a[lo..hi][k - lo] == b[lo..hi][k - lo]; }
    }
  }

  /** The prefix, letter by letter; its five underscores stand at 0, 1, 8, 13 and 14. */
  lemma PrefixSpelled()
    ensures var p := STRESS_EVENT_PREFIX;
            && |p| == 16 && p[2..8] == "stress" && p[9..13] == "seed" && p[15] == ':'
            && forall k :: 0 <= k < 16 ==> (p[k] == '_' <==> k in {0, 1, 8, 13, 14})
  {
    var p := STRESS_EVENT_PREFIX;
    assert p[2..8] == "stress" && p[9..13] == "seed";
  }

  /** Beginning like the prefix is having its letters: the wildcards agree with anything. */
  lemma LettersDecide(name: string)
    requires |name| >= 16
    ensures BeginsLike(name, STRESS_EVENT_PREFIX)
            <==> name[2..8] == "stress" && name[9..13] == "seed" && name[15] == ':'
  {
    var p := STRESS_EVENT_PREFIX;
    PrefixSpelled();
    SliceEqual(name, p, 2, 8);
    SliceEqual(name, p, 9, 13);
    if name[2..8] == "stress" && name[9..13] == "seed" && name[15] == ':' {
      forall k | 0 <= k < 16 ensures p[k] == '_' || name[k] == p[k] {
        assert k in {0, 1, 8, 13, 14} || 2 <= k < 8 || 9 <= k < 13 || k == 15;
      }
    }
  }

  lemma PrefixedHasLetters(name: string)
    requires |name| >= 16
    ensures HasPrefix(name) <==>
              BeginsLike(name, STRESS_EVENT_PREFIX)
              && name[0] == '_' && name[1] == '_' && name[8] == '_' && name[13] == '_' && name[14] == '_'
  {
    var p := STRESS_EVENT_PREFIX;
    PrefixSpelled();
    SliceEqual(name, p, 0, 16);
    assert p[..16] == p && name[0..16] == name[..16] && p[0..16] == p[..16];
    if BeginsLike(name, p) && name[0] == '_' && name[1] == '_' && name[8] == '_' && name[13] == '_' && name[14] == '_' {
      forall k | 0 <= k < 16 ensures name[k] == p[k] { assert p[k] == '_' ==> k in {0, 1, 8, 13, 14}; }
    }
  }

  /** The underscores of the prefix are wildcards: the pattern selects the reserved names and their look-alikes. */
  lemma PatternSelects(name: string)
    ensures Matches(name, STRESS_EVENT_PREFIX + "%") <==> HasPrefix(name) || LooksReserved(name)
    ensures !(HasPrefix(name) && LooksReserved(name))
  {
    hide BeginsLike, HasPrefix, Matches;
    PrefixIsPlain();
    PrefixMatches(name, STRESS_EVENT_PREFIX);
    if |name| >= 16 {
      LettersDecide(name);
      PrefixedHasLetters(name);
    } else {
      TooShort(name);
    }
  }

  lemma PrefixIsPlain()
    ensures Plain(STRESS_EVENT_PREFIX)
  {
  }

  lemma TooShort(name: string)
    requires |name| < 16
    ensures !BeginsLike(name, STRESS_EVENT_PREFIX) && !HasPrefix(name)
  {
    PrefixSpelled();
  }

  /** A manually created event that Reset deletes although its name does not carry the reserved prefix. */
  lemma ManualEventSelected()
    ensures var name := "A stress seed 1: dress rehearsal";
            Matches(name, STRESS_EVENT_PREFIX + "%") && !HasPrefix(name)
  {
    var name := "A stress seed 1: dress rehearsal";
    hide Matches;
    assert name == "A " + "stress" + " " + "seed" + " 1" + ": dress rehearsal";
    assert name[2..8] == "stress" && name[9..13] == "seed" && name[15] == ':' && name[0] == 'A';
    PatternSelects(name);
  }

  /** Only events with the reserved prefix are selected exactly when no event has a look-alike name. */
  lemma OnlyReservedSelected(s: Tables)
    ensures forall e ::
              e in EventsLike(s, STRESS_EVENT_PREFIX + "%")
              <==> e in s.events && (HasPrefix(s.events[e]) || LooksReserved(s.events[e]))
    ensures (forall e :: e in EventsLike(s, STRESS_EVENT_PREFIX + "%") ==> HasPrefix(s.events[e]))
            <==> (forall e :: e in s.events ==> !LooksReserved(s.events[e]))
  {
    forall e | e in s.events
      ensures e in EventsLike(s, STRESS_EVENT_PREFIX + "%") <==> HasPrefix(s.events[e]) || LooksReserved(s.events[e])
    {
      PatternSelects(s.events[e]);
    }
    forall e | e in s.events
      ensures !(HasPrefix(s.events[e]) && LooksReserved(s.events[e])) { PatternSelects(s.events[e]); }
  }
}
