/**
 Retried reserve requests among interleaved transactions: a key held by a reservation of the request's own kind is
 answered from that reservation, and a key held by one of the other kind never lets the request commit.
 */
module Retries {
  import opened Schema
  import opened Invariant
  import opened Serial
  import opened Runs
  import opened Queries
  import opened Machine
  import opened TxInvariant
  import opened Serializable
  import opened Statements
  import opened Completion

  predicate Reserves(q: Request) {
    q.QuantityRequest? || q.SeatsRequest?
  }

  function OwnKind(q: Request): Kind {
    if q.QuantityRequest? then Quantity else Seats
  }

  function OtherKind(q: Request): Kind {
    if q.QuantityRequest? then Seats else Quantity
  }

  /** A reservation of this kind is stored under the request's session and key. */
  ghost predicate Holds(c: Tables, q: Request, kind: Kind)
    requires Reserves(q)
  {
    Stored(c, q.visitor.sessionId, q.key, kind)
  }

  lemma StoredStays(c: Tables, c': Tables, sessionId: Id, key: string, kind: Kind)
    requires Evolves(c, c') && Stored(c, sessionId, key, kind)
    ensures Stored(c', sessionId, key, kind)
  {
    var r :| KeyedAs(c, r, sessionId, key, kind);
    assert HeaderEvolves(c.reservations[r], c'.reservations[r]);
    assert KeyedAs(c', r, sessionId, key, kind);
  }

  /** The opening key read is the only statement of a reserve that ends it. */
  lemma OnlyKeyReadAnswers(c: Tables, busy: set<Row>, tx: Tx, now: Time, newId: Id, p: Progress)
    requires Inv(c) && Reserves(tx.request) && !tx.stage.Settling?
    requires Advance(c, busy, tx, now, newId) == Some(p) && p.stage.Answered?
    ensures Holds(c, tx.request, OwnKind(tx.request))
  {
    hide HeaderUpdates, HoldUpdates, View, OverdueHolders, KeyTaken, Replayable, Inv, SettleStep;
    if tx.stage.Start? {
      if tx.request.QuantityRequest? {
        QuantityKeyRead(c, busy, tx.request, tx.writes, newId);
      } else {
        SeatsKeyRead(c, busy, tx.request, tx.writes, now, newId);
      }
    }
  }

  lemma ReservesNeverSettle(c: Tables, tx: Tx)
    requires TxOk(c, tx) && Reserves(tx.request)
    ensures !tx.stage.Settling?
  {
  }

  /** At every moment of any run, a reserve transaction that has been answered has its own reservation stored. */
  lemma {:induction false} AnsweredIsStored(s: Tables, events: seq<Event>, t: nat)
    requires Inv(s) && t in Run(s, events).txs && Reserves(Run(s, events).txs[t].request)
    requires Run(s, events).txs[t].stage.Answered?
    ensures var m := Run(s, events); Holds(m.committed, m.txs[t].request, OwnKind(m.txs[t].request))
  {
    hide Inv, TxOk, Holds, Evolves, Advance, View;
    var before, e := events[..|events| - 1], events[|events| - 1];
    var m := Run(s, before);
    RunOk(s, before);
    if t in m.txs && m.txs[t].stage.Answered? && m.txs[t] == Run(s, events).txs[t] {
      AnsweredIsStored(s, before, t);
      InterleavingsEvolve(s, events, |events| - 1);
      var q := m.txs[t].request;
      HoldsStays(m.committed, Run(s, events).committed, q, OwnKind(q));
    } else {
      ReservesNeverSettle(m.committed, m.txs[t]);
      OnlyKeyReadAnswers(m.committed, Busy(m, t), m.txs[t], e.now, e.newId, StepOf(m, e).value);
    }
  }

  lemma HoldsStays(c: Tables, c': Tables, q: Request, kind: Kind)
    requires Reserves(q) && Evolves(c, c') && Holds(c, q, kind)
    ensures Holds(c', q, kind)
  {
    StoredStays(c, c', q.visitor.sessionId, q.key, kind);
  }

  /** One (session, key) is never stored under both kinds. */
  lemma OneKindPerKey(c: Tables, sessionId: Id, key: string)
    requires Inv(c)
    ensures !(Stored(c, sessionId, key, Quantity) && Stored(c, sessionId, key, Seats))
  {
    if Stored(c, sessionId, key, Quantity) && Stored(c, sessionId, key, Seats) {
      var a :| KeyedAs(c, a, sessionId, key, Quantity);
      var b :| KeyedAs(c, b, sessionId, key, Seats);
      assert SameKey(c.reservations[a], c.reservations[b]);
      assert false;
    }
  }

  /** A transaction about to commit a take has a free key. */
  lemma FinishedIsFreshOrAnswered(c: Tables, tx: Tx)
    requires TxOk(c, tx) && Reserves(tx.request) && Finished(tx) && !tx.stage.Answered?
    ensures !KeyTaken(c, tx.request.visitor.sessionId, tx.request.key)
  {
    hide HeaderUpdates, HoldUpdates, RowsOk, Covers, Listed, SeatsLocked, KeyTaken;
  }

  /**
   From any moment of any run: a retry that finds a reservation of its own kind under its key can commit, and
   changes nothing.
   */
  lemma RetryCompletes(s: Tables, events: seq<Event>, t: nat) returns (more: seq<Event>)
    requires Inv(s) && t in Run(s, events).txs && Run(s, events).txs[t].stage.Start?
    requires Reserves(Run(s, events).txs[t].request)
    requires var m := Run(s, events); Holds(m.committed, m.txs[t].request, OwnKind(m.txs[t].request))
    ensures Run(s, events + more).history == Run(s, events).history + [ReadOnly]
    ensures Run(s, events + more).committed == Run(s, events).committed
  {
    hide Inv, Run, QuantityStep, SeatsStep, Busy, Stored, TxOk;
    var m := Run(s, events);
    var q := m.txs[t].request;
    RunOk(s, events);
    if q.QuantityRequest? {
      QuantityKeyRead(m.committed, Busy(m, t), q, m.txs[t].writes, 0);
    } else {
      SeatsKeyRead(m.committed, Busy(m, t), q, m.txs[t].writes, 0, 0);
    }
    var e := Step(t, 0, 0);
    OwnStep(s, events, t, 0, 0, Progress(Answered, m.txs[t].writes, {}));
    RunOneMore(s, events + [e], Commit(t));
    more := [e] + [Commit(t)];
    assert events + more == (events + [e]) + [Commit(t)];
    NextCommit(s, events, more, ReadOnly);
  }

  /**
   Once a key is held by a reservation of the other kind, at whatever point the request then is and however the
   run goes on, a reserve with that key never comes to a commit: it can only roll back.
   */
  lemma OtherKindNeverCommits(s: Tables, events: seq<Event>, i: nat, t: nat)
    requires Inv(s) && i <= |events|
    requires t in Run(s, events).txs && Reserves(Run(s, events).txs[t].request)
    requires var q := Run(s, events).txs[t].request; Holds(Run(s, events[..i]).committed, q, OtherKind(q))
    ensures !Finished(Run(s, events).txs[t])
  {
    hide Inv, Run, Evolves, TxOk, Finished, Stored;
    var m := Run(s, events);
    var q := m.txs[t].request;
    RunOk(s, events);
    InterleavingsEvolve(s, events, i);
    StoredStays(Run(s, events[..i]).committed, m.committed, q.visitor.sessionId, q.key, OtherKind(q));
    if Finished(m.txs[t]) {
      if m.txs[t].stage.Answered? {
        AnsweredIsStored(s, events, t);
        OneKindPerKey(m.committed, q.visitor.sessionId, q.key);
      } else {
        FinishedIsFreshOrAnswered(m.committed, m.txs[t]);
        StoredIsTaken(m.committed, q.visitor.sessionId, q.key, OtherKind(q));
      }
    }
  }

  lemma StoredIsTaken(c: Tables, sessionId: Id, key: string, kind: Kind)
    requires Stored(c, sessionId, key, kind)
    ensures KeyTaken(c, sessionId, key)
  {
  }
}
