/**
 Settlements get through: a cancel, confirm or worker batch that has its header locks, and of whose counters none
 is locked by another transaction, can run all its statements and commit. So every legal serial settlement is what
 some run of the machine commits, and ErrReservationInvariantBroken is met nowhere on the way.
 */
module Completion {
  import opened Schema
  import opened Ordering
  import opened Invariant
  import opened Settlement
  import opened Serial
  import opened Machine
  import opened TxInvariant
  import opened TxSettles
  import opened TxReserves
  import opened Serializable
  import opened Statements
  import opened Queries

  /** No transaction but t has locked the counter of an item of these reservations. */
  ghost predicate CountersFree(m: System, t: nat, queue: seq<Id>) {
    forall i :: i in m.committed.items && m.committed.items[i].reservationId in queue ==>
      TypeRow(m.committed.items[i].ticketTypeId) !in Busy(m, t)
  }

  function SubRank(sub: Sub): nat {
    match sub
    case Idle => 2
    case Moving(_, _) => 1
    case ChildrenDone => 0
  }

  function ItemsLeft(sub: Sub): nat {
    if sub.Moving? && sub.next <= |sub.list| then |sub.list| - sub.next else 0
  }

  /** One statement of a settlement keeps what it is about and comes closer to its end. */
  lemma SettleStepAdvances(c: Tables, busy: set<Row>, w: Writes, st: Stage, p: Progress)
    requires st.Settling? && SettleStep(c, busy, w, st) == Some(p)
    ensures p.stage.Settling? && p.stage.target == st.target && p.stage.now == st.now && p.stage.queue == st.queue
    ensures st.done < |st.queue|
    ensures p.stage.done == st.done + 1
            || (p.stage.done == st.done && SubRank(p.stage.sub) < SubRank(st.sub))
            || (p.stage.done == st.done && SubRank(p.stage.sub) == SubRank(st.sub)
                && ItemsLeft(p.stage.sub) < ItemsLeft(st.sub))
  {
    hide ItemUpdates, HoldUpdates, View, ListItems;
  }

  lemma RunOneMore(s: Tables, events: seq<Event>, e: Event)
    requires Enabled(Run(s, events), e)
    ensures Run(s, events + [e]) == Do(Run(s, events), e)
  {
    assert (events + [e])[..|events|] == events;
  }

  /** Transaction t has gone on by itself: nothing is committed, and it is blocked on no more rows than before. */
  ghost predicate Ahead(m: System, m': System, t: nat) {
    && t in m.txs && t in m'.txs && m'.txs[t].request == m.txs[t].request
    && m'.committed == m.committed && m'.history == m.history
    && Busy(m', t) <= Busy(m, t)
  }

  lemma OwnStep(s: Tables, events: seq<Event>, t: nat, now: Time, newId: Id, p: Progress)
    requires t in Run(s, events).txs
    requires var m := Run(s, events); Advance(m.committed, Busy(m, t), m.txs[t], now, newId) == Some(p)
    ensures var m := Run(s, events);
            var m' := Run(s, events + [Step(t, now, newId)]);
            Ahead(m, m', t) && m'.txs[t] == Stepped(m.txs[t], p)
  {
    hide Run, Advance, Busy;
    RunOneMore(s, events, Step(t, now, newId));
    BusyShrinks(Run(s, events), Step(t, now, newId));
  }

  lemma BusyShrinks(m: System, e: Event)
    requires e.Step? && Enabled(m, e)
    ensures Busy(Do(m, e), e.t) <= Busy(m, e.t)
  {
    var m' := Do(m, e);
    forall x | x in Busy(m', e.t) ensures x in Busy(m, e.t) {
      var u :| u in m'.txs && u != e.t && x in m'.txs[u].rows;
      assert u in m.txs && x in m.txs[u].rows;
    }
  }

  /** What the transaction will be recorded as does not change while its statements run. */
  lemma SameOp(a: Tx, b: Tx)
    requires a.request == b.request && a.stage.Settling? && b.stage.Settling?
    requires a.stage.now == b.stage.now && a.stage.queue == b.stage.queue
    ensures OpOf(a) == OpOf(b)
  {
  }

  lemma {:induction false} SettlementCompletes(s: Tables, events: seq<Event>, t: nat) returns (more: seq<Event>)
    requires Inv(s) && t in Run(s, events).txs && Run(s, events).txs[t].stage.Settling?
    requires CountersFree(Run(s, events), t, Run(s, events).txs[t].stage.queue)
    ensures Run(s, events + more).history == Run(s, events).history + [OpOf(Run(s, events).txs[t])]
    decreases |Run(s, events).txs[t].stage.queue| - Run(s, events).txs[t].stage.done,
              SubRank(Run(s, events).txs[t].stage.sub), ItemsLeft(Run(s, events).txs[t].stage.sub)
  {
    hide Inv, Run, SettleStep, TxOk, View, Busy, OpOf;
    var m := Run(s, events);
    var st := m.txs[t].stage;
    SettlingInRange(s, events, t);
    if st.done == |st.queue| {
      more := [Commit(t)];
      RunOneMore(s, events, Commit(t));
    } else {
      var e := Step(t, 0, 0);
      NextCounterFree(s, events, t);
      InterleavingsNeverBreak(s, events, t, Busy(m, t));
      var p := StepOf(m, e).value;
      SettleStepAdvances(m.committed, Busy(m, t), m.txs[t].writes, st, p);
      RunOneMore(s, events, e);
      BusyShrinks(m, e);
      SameOp(m.txs[t], Stepped(m.txs[t], p));
      var rest := SettlementCompletes(s, events + [e], t);
      more := [e] + rest;
      assert events + more == (events + [e]) + rest;
    }
  }

  lemma NextCounterFree(s: Tables, events: seq<Event>, t: nat)
    requires Inv(s) && t in Run(s, events).txs && Run(s, events).txs[t].stage.Settling?
    requires CountersFree(Run(s, events), t, Run(s, events).txs[t].stage.queue)
    ensures !WaitsForCounter(Run(s, events).committed, Busy(Run(s, events), t), Run(s, events).txs[t].stage)
  {
    hide Run, Busy;
    RunOk(s, events);
    var m := Run(s, events);
    OnlySettlersSettle(m.committed, m.txs[t]);
    NextIsQueued(m.committed, m.txs[t].stage);
  }

  /** The item about to be moved belongs to a reservation of the queue. */
  lemma NextIsQueued(c: Tables, st: Stage)
    requires st.Settling? && SubOk(c, st.queue, st.done, st.sub)
    ensures st.sub.Moving? && st.sub.next < |st.sub.list| ==>
              st.sub.list[st.sub.next] in c.items && c.items[st.sub.list[st.sub.next]].reservationId in st.queue
  {
    if st.sub.Moving? && st.sub.next < |st.sub.list| { assert st.sub.list[st.sub.next] in st.sub.list; }
  }

  lemma SettlingInRange(s: Tables, events: seq<Event>, t: nat)
    requires Inv(s) && t in Run(s, events).txs && Run(s, events).txs[t].stage.Settling?
    ensures var st := Run(s, events).txs[t].stage; st.done <= |st.queue|
  {
    RunOk(s, events);
    OnlySettlersSettle(Run(s, events).committed, Run(s, events).txs[t]);
  }

  /** What one more commit does to the committed tables. */
  lemma NextCommit(s: Tables, events: seq<Event>, more: seq<Event>, op: Op)
    requires Inv(s) && Run(s, events + more).history == Run(s, events).history + [op]
    ensures Legal(Run(s, events).committed, op)
    ensures Run(s, events + more).committed == Apply(Run(s, events).committed, op)
  {
    hide Inv, Run, Legal, Apply;
    var ops := Run(s, events).history;
    InterleavingsSerialise(s, events);
    InterleavingsSerialise(s, events + more);
    Runs.ReplayStep(s, ops + [op], |ops|);
    assert (ops + [op])[..|ops|] == ops && (ops + [op])[..|ops| + 1] == ops + [op];
  }

  /**
   Whatever else is open, a worker batch that is about to lock its rows takes the earliest due reservations nobody
   has locked, and if their counters are free it can expire exactly those.
   */
  lemma BatchCompletes(s: Tables, events: seq<Event>, t: nat, now: Time) returns (batch: seq<Id>, more: seq<Event>)
    requires Inv(s) && t in Run(s, events).txs
    requires Run(s, events).txs[t].request.BatchRequest? && Run(s, events).txs[t].stage.Start?
    ensures var m := Run(s, events);
            FirstDue(m.committed, LockedHeaders(m.committed, Busy(m, t)), now, m.txs[t].request.limit, batch)
    ensures CountersFree(Run(s, events), t, batch) ==>
              var m, m' := Run(s, events), Run(s, events + more);
              && m'.history == m.history + [ExpireBatch(ToSet(batch), now)]
              && m'.committed == Settle(m.committed, ToSet(batch), Expired)
  {
    hide Inv, Run, Settle, FirstDue, LockedHeaders, Busy, LockBatch, SettleStep;
    var m := Run(s, events);
    BatchLockMeans(m.committed, Busy(m, t), m.txs[t].request, m.txs[t].writes, now);
    var p := LockBatch(m.committed, Busy(m, t), m.txs[t].request, m.txs[t].writes, now).value;
    batch, more := p.stage.queue, [];
    OwnStep(s, events, t, now, 0, p);
    var e := Step(t, now, 0);
    if CountersFree(m, t, batch) {
      var rest := SettlementCompletes(s, events + [e], t);
      more := [e] + rest;
      assert events + more == (events + [e]) + rest;
      NextCommit(s, events, more, ExpireBatch(ToSet(batch), now));
    }
  }

  /**
   Whatever else is open, a cancel or confirm whose header is there, is the visitor's and is not locked elsewhere
   can commit: as one settlement if the reservation is still reserved and its counters are free, else as a read.
   */
  lemma FinishCompletes(s: Tables, events: seq<Event>, t: nat, now: Time) returns (more: seq<Event>)
    requires Inv(s) && t in Run(s, events).txs
    requires Run(s, events).txs[t].request.FinishRequest? && Run(s, events).txs[t].stage.Start?
    requires var m := Run(s, events);
             var q := m.txs[t].request;
             && q.rid in m.committed.reservations
             && (m.committed.reservations[q.rid].sessionId == q.visitor.sessionId
                 || (q.visitor.userId.Some? && m.committed.reservations[q.rid].userId == q.visitor.userId))
             && HeaderRow(q.rid) !in Busy(m, t) && CountersFree(m, t, [q.rid])
    ensures var m := Run(s, events);
            var q := m.txs[t].request;
            Run(s, events + more).history
            == m.history + [if m.committed.reservations[q.rid].status == Reserved
                            then Finish(q.rid, q.visitor, q.want, now) else ReadOnly]
  {
    hide Inv, Run, Busy, LockHeader, SettleStep;
    var m := Run(s, events);
    var q := m.txs[t].request;
    HeaderLockMeans(m.committed, Busy(m, t), q, m.txs[t].writes, now);
    var p := LockHeader(m.committed, Busy(m, t), q, m.txs[t].writes, now).value;
    var e := Step(t, now, 0);
    OwnStep(s, events, t, now, 0, p);
    var rest;
    if p.stage.Settling? {
      rest := SettlementCompletes(s, events + [e], t);
    } else {
      RunOneMore(s, events + [e], Commit(t));
      rest := [Commit(t)];
    }
    more := [e] + rest;
    assert events + more == (events + [e]) + rest;
  }

  /** The first two events of a transaction alone on the database: it begins, and runs its first statement. */
  lemma BeginAlone(s: Tables, q: Request, now: Time, p: Progress)
    requires WellFormed(q)
    requires Advance(s, {}, Tx(q, Start, NoWrites(), {}), now, 0) == Some(p)
    ensures Run(s, [Begin(0, q), Step(0, now, 0)]) == System(s, map[0 := Stepped(Tx(q, Start, NoWrites(), {}), p)], [])
  {
    hide Advance;
    var tx := Tx(q, Start, NoWrites(), {});
    var m0, m1 := System(s, map[], []), System(s, map[0 := tx], []);
    assert Run(s, []) == m0;
    RunOneMore(s, [], Begin(0, q));
    assert [] + [Begin(0, q)] == [Begin(0, q)];
    assert Run(s, [Begin(0, q)]) == m1;
    assert Busy(m1, 0) == {};
    RunOneMore(s, [Begin(0, q)], Step(0, now, 0));
    assert [Begin(0, q)] + [Step(0, now, 0)] == [Begin(0, q), Step(0, now, 0)];
    assert map[0 := tx][0 := Stepped(tx, p)] == map[0 := Stepped(tx, p)];
  }

  /**
   Every legal cancel, confirm or overdue expiry is committed by some run of the machine, and by nothing else
   in it.
   */
  lemma FinishIsReachable(s: Tables, rid: Id, visitor: Visitor, want: Status, now: Time) returns (events: seq<Event>)
    requires Inv(s) && Legal(s, Finish(rid, visitor, want, now))
    ensures Run(s, events).history == [Finish(rid, visitor, want, now)]
    ensures Run(s, events).committed == Settle(s, {rid}, Outcome(s.reservations[rid], want, now))
  {
    hide Inv, Run, Settle;
    var q := FinishRequest(rid, visitor, want);
    var p := LockHeader(s, {}, q, NoWrites(), now).value;
    BeginAlone(s, q, now, p);
    var start := [Begin(0, q), Step(0, now, 0)];
    assert CountersFree(Run(s, start), 0, p.stage.queue);
    var more := SettlementCompletes(s, start, 0);
    events := start + more;
    OneCommit(s, events, Finish(rid, visitor, want, now));
  }

  /** A worker batch alone on the database expires exactly the first limit rows of the overdue queue. */
  lemma BatchIsReachable(s: Tables, limit: nat, now: Time) returns (events: seq<Event>)
    requires Inv(s) && limit > 0
    ensures var batch := Prefix(OrderBy(Overdues(s, now), Deadlines(s)), limit);
            && Run(s, events).history == [ExpireBatch(ToSet(batch), now)]
            && Run(s, events).committed == Settle(s, ToSet(batch), Expired)
  {
    hide Inv, Run, Settle, Overdues, Deadlines, OrderBy;
    var q := BatchRequest(limit);
    var p := LockBatch(s, {}, q, NoWrites(), now).value;
    assert Due(s, {}, now) == Overdues(s, now);
    BeginAlone(s, q, now, p);
    var start := [Begin(0, q), Step(0, now, 0)];
    assert CountersFree(Run(s, start), 0, p.stage.queue);
    var more := SettlementCompletes(s, start, 0);
    events := start + more;
    OneCommit(s, events, ExpireBatch(ToSet(p.stage.queue), now));
  }

  lemma OneCommit(s: Tables, events: seq<Event>, op: Op)
    requires Inv(s) && Run(s, events).history == [op]
    ensures Legal(s, op) && Run(s, events).committed == Apply(s, op)
  {
    hide Inv, Legal, Apply;
    assert Run(s, []) == System(s, map[], []) && [] + events == events;
    NextCommit(s, [], events, op);
  }
}
