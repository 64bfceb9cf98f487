# Verification of the ticket reservation service

A Dafny model of the reservation engine of this repository and proofs about it: the service code in
`internal/modules/reservations`, the SQL statements it runs, the constraints of the schema behind them, the
stress-fixture reset, the consistency check and the inventory views.

    dafny verify dfyconfig.toml

## How it is built

The database is one immutable value, `Schema.Tables`: events, ticket types, seats, reservation headers, items
and seat holds. `Invariant.Constraints` is what PostgreSQL enforces (CHECKs, keys, the partial unique index,
references). `Invariant.Inv` adds what only the service keeps: every counter equals the sum of its items, and
every header agrees with its children. There are three levels, and each is proved against the next.

1. **Serial operations** (`Settlement`, `Serial`, `Runs`). Cancelling, confirming and expiring are one
   set-based function, `Settle`. `Serial.Legal` and `Serial.Apply` say when a committed transaction is allowed
   and what it does. Invariance, absorbing statuses, deadlines and one take per key are proved over runs.
2. **The code run alone** (`Queries`, `StockLoops`, `Lifecycle`, `Booking`, `Service`, `Worker`). `Queries.Database`
   is a class with one method per SQL statement; counter arithmetic is done in a 32-bit type, so its verification
   shows that nothing overflows. `Service.Service` has the transaction bodies with their loops, early returns and
   rollbacks. Each method fixes the answer and the whole new state in every branch, in any state the schema
   allows; `FinishMeaning`, `ReserveQuantityMeaning` and `ReserveSeatsMeaning` then say what this is in
   reachable states, where it coincides with level 1.
3. **Interleavings** (`Machine`, `TxInvariant`, `TxSettles`, `TxReserves`, `TxStable`, `TxCommit`, `Serializable`,
   `Statements`, `Completion`, `ReserveCompletion`, `Uncommitted`, `Deadlock`, `Idempotency`, `Retries`, `Ownership`).
   A step machine runs the statements of any number of transactions in any order: READ COMMITTED reads under the
   transaction's own uncommitted rows, exclusive row locks held to the end, SKIP LOCKED for the worker, rollback at
   any time. A statement that has to wait or is going to fail has no next step. Every run commits a legal serial run
   of level 1, so all of its properties carry over; `Completion` and `ReserveCompletion` show the other direction,
   that from any moment of any run the statements of a legal operation can go on to its commit, and `Uncommitted`
   that every view on the way meets the CHECKs. `Statements` says in the stored fields what the deciding statements
   do, `Retries` what becomes of a repeated key, and `Ownership` what a take leaves behind and for whom.

`Input` and `Uuid` cover request parsing and the text form of UUIDs (section 4 of RFC 9562); `Like`, `Reset`,
`Consistency` and `Inventory` cover the administrative and read-side queries. `Ordering` and `Sums` hold the
lemmas about ORDER BY and about adding up item quantities.

Clock readings and generated ids are inputs, and a transaction may read the clock several times. An `Id` is the
number a UUID's sixteen bytes spell; `Uuid.TextOrder` shows that its order is both SQL's and Go's.

## Where the code and its documentation differ

`internal/modules/stressadmin/service.go:72-73` says that Reset removes only fixtures with the reserved prefix.
The query compares with LIKE, and the five underscores of `__stress_seed__:%` are wildcards, so a manually created
event called `A stress seed 1: dress rehearsal` is deleted too. `Reset.PatternSelects` states exactly which names are
selected, `Reset.ManualEventSelected` gives that name, and `Reset.OnlyReservedSelected` says when the documented
behaviour holds: exactly when no event has such a look-alike name.

## Model

| member | source | states |
|---|---|---|
| `Serializable.InterleavingsSerialise` | internal/modules/reservations/service.go:333-493 | After any interleaving of the statements of any number of cancel, confirm, worker, quantity and seat transactions, the committed tables are those of running the committed transactions one at a time in commit order, each legal where it runs, and they satisfy the whole invariant: CHECKs, keys, one active hold per seat, counters equal to their items, headers agreeing with children |
| `Serializable.InterleavingsSettleOnce` | internal/modules/reservations/service.go:339-381 | A reservation leaves `reserved` in at most one committed transaction of a run, so its stock is released or sold at most once, although the header UPDATE has no status guard |
| `Serializable.InterleavingsEvolve` | internal/sqlc/reservations.sql.go:697-703 | Between any two moments of a run no row disappears, children keep their reservation, and confirmed, cancelled and expired are never left again |
| `Serializable.InterleavingsTakeOnce` | db/migrations/000001_init.up.sql:82-83 | One (session, key) creates a reservation and takes stock or seats in at most one committed transaction of a run |
| `Serializable.InterleavingsRespectDeadlines` | internal/modules/reservations/service.go:215-240 | No path (worker, overdue cancel or confirm, seat sweep) expires a reservation before its deadline at the clock reading it used, and nothing is cancelled or confirmed at or after it |
| `Serializable.InterleavingsNeverBreak` | internal/modules/reservations/service.go:792-816 | In the middle of any run the next statement of a cancel, confirm or worker batch is stopped exactly when it is the UPDATE of a counter another transaction has locked: the guard reserved_quantity >= quantity never fails and the loop never ends empty-handed |
| `Serializable.InterleavingsSpareSettled` | internal/modules/reservations/service.go:215-240 | A reservation on the stale expired list that has been confirmed or cancelled since the listing is not written by the sweep, neither its header nor any of its holds |
| `Serializable.InterleavingsConfirmedSeatBlocks` | internal/modules/reservations/service.go:266-274 | Once any of its requested seats is confirmed, in whatever state the request then is and however the run goes on, a seat transaction never comes to a commit that takes seats: it rolls back, or replays an earlier answer |
| `Serializable.InterleavingsNeverResell` | db/migrations/000001_init.up.sql:122-124 | No transaction that commits after a seat was confirmed takes that seat |
| `Serializable.InterleavingsConfirmedSeatStopsInsert` | internal/modules/reservations/service.go:266-274 | The insert for a confirmed seat has no next step, whatever the clock or the other locks |
| `Uncommitted.InterleavingsMeetChecks` | db/migrations/000001_init.up.sql:42-46 | Between any two statements of any run, what each open transaction sees, uncommitted counters included, meets the CHECKs and the int32 range and has at most one active hold per seat |
| `Serializable.InterleavingsSeatInsert` | internal/modules/reservations/service.go:258-279 | In any run the insert for a seat goes through exactly when the seat has, among the committed rows, no confirmed hold and no reserved hold due after the listing, whatever happened between the unlocked listing and the header locks |
| `Completion.SettlementCompletes` | internal/modules/reservations/service.go:781-824 | At any moment of any run, a cancel, confirm or worker batch that holds its header locks can run all its statements and commit, when no other transaction has locked the counter of one of its own items: no guard and no invariant check stops it |
| `Completion.BatchCompletes` | internal/modules/reservations/service.go:463-498 | At any moment of any run, whatever else is open, a worker batch about to lock its rows takes the earliest due reservations whose headers nobody has locked, and when their counters are free it can go on to expire exactly those |
| `Completion.FinishCompletes` | internal/modules/reservations/service.go:333-382 | At any moment of any run, whatever else is open, a cancel or confirm by the owner whose header nobody has locked can commit: as the settlement if the reservation is still reserved and its counters are free, else as a read |
| `Completion.NextCommit` | internal/db/tx.go:11-40 | One more commit to a run is a legal operation on the tables committed before it, and the tables are those tables with its effect |
| `Completion.FinishIsReachable` | internal/modules/reservations/service.go:325-457 | Every legal cancel, confirm or overdue expiry is committed by some run of the statements, with exactly its serial effect |
| `Completion.BatchIsReachable` | internal/modules/reservations/service.go:463-498 | A worker batch alone on the database runs to its commit and expires exactly the first rows of the whole overdue queue |
| `ReserveCompletion.QuantityCompletes` | internal/modules/reservations/service.go:102-143 | At any moment of any run a quantity transaction past its key read can commit when the stock is there, the key is free and nobody has locked its rows |
| `ReserveCompletion.SeatsComplete` | internal/modules/reservations/service.go:225-282 | At any moment of any run, with a list of overdue holders that may have gone stale, a seat transaction can lock the listed headers, sweep, insert and commit when its seats are bookable, its key is free and nobody has locked its rows |
| `ReserveCompletion.SeatRequestCompletes` | internal/modules/reservations/service.go:199-283 | At any moment of any run a seat transaction past its key read can lock, list, sweep, insert and commit what is legal now, when nobody has locked its seats, the headers of the due holds on them, or the rows it inserts |
| `ReserveCompletion.TakeQuantityIsReachable` | internal/modules/reservations/service.go:61-148 | Every legal quantity reservation is committed by some run of the statements, with exactly its serial effect |
| `ReserveCompletion.TakeSeatsIsReachable` | internal/modules/reservations/service.go:155-291 | Every legal seat reservation, with whatever ids, is committed by some run of the statements, with exactly its serial effect |
| `Serializable.CommitOk` | internal/db/tx.go:11-40 | A commit keeps everything: the committer's writes are one legal serial operation, and what every other open transaction has written stays right |
| `Serializable.TakesFree` | db/queries/reservations.sql:100-109 | No statement locks a row that another transaction has locked |
| `Statements.BatchLockMeans` | internal/sqlc/reservations.sql.go:389-397 | The worker's SELECT never waits: it locks reserved reservations strictly past their deadline whose headers nobody has locked, in the order of (expires_at, id), up to the limit or else all of them, and none after one left out; a locked header keeps no other one out |
| `Statements.StockStepMeans` | internal/sqlc/reservations.sql.go:625-632 | The stock UPDATE of an interleaved request runs exactly when the type is the event's, sold, reserved and the quantity stay within the total and nobody has locked the row; it locks that row and adds the quantity to the reserved counter only |
| `Statements.ItemListMeans` | internal/sqlc/reservations.sql.go:435-440 | In the middle of any transaction the item list of a reservation has each of its items once, by (ticket_type_id, id) |
| `TxCommit.TxCommits` | internal/db/tx.go:11-40 | At its commit the row versions a transaction has written are exactly the effect of one legal serial operation on the committed tables |
| `TxCommit.FinishCommits` | internal/modules/reservations/service.go:333-382 | What a cancel or confirm has written when its statements are done is the settlement of that one reservation |
| `TxCommit.BatchCommits` | internal/modules/reservations/service.go:469-493 | What a worker batch has written when its loop is done is the expiry of exactly the rows it locked |
| `TxCommit.StaleListHarmless` | internal/modules/reservations/service.go:215-231 | The list made before the header locks and the list a serial run would make differ only in reservations that have left `reserved` |
| `TxCommit.StaleSweepSettles` | internal/sqlc/reservations.sql.go:174-193 | The two guarded bulk UPDATEs over the stale list have the effect of settling the true list of overdue holders |
| `TxCommit.SeatsLegal` | internal/modules/reservations/service.go:199-279 | A seat transaction that reaches its commit finds its key free, its seats existing and locked, and every seat without a hold the sweep would spare |
| `TxStable.CommitKeeps` | db/queries/reservations.sql:19-25 | A commit of another transaction leaves every row this one has locked, and its fresh keys free: the only use of lock exclusivity |
| `TxStable.TxKept` | internal/modules/reservations/service.go:333-381 | What an open transaction has computed under its locks survives every commit of another transaction |
| `TxReserves.StepOk` | internal/modules/reservations/service.go:61-868 | Every statement of every kind of transaction keeps the relation between the transaction's writes and the committed rows |
| `TxSettles.SettleStepOk` | internal/modules/reservations/service.go:781-824 | Each statement of a release or confirm loop keeps the uncommitted counters at the committed ones less the quantities moved so far, although counters and items disagree until the bulk status UPDATE |
| `TxSettles.GuardHolds` | internal/sqlc/reservations.sql.go:592-599 | The counter a loop step sees covers the item it is about to move, also when several items share a ticket type and other transactions commit in between |
| `TxSettles.SettleStopsOnlyOnCounter` | internal/modules/reservations/service.go:792-814 | A settlement statement has no next step if and only if it is a counter UPDATE on a row locked elsewhere |
| `TxInvariant.TxFootprint` | db/queries/reservations.sql:19-25 | A transaction writes only rows it has locked or inserted, and only takes rows out of `reserved` |
| `Deadlock.NoWaitCycle` | internal/modules/reservations/service.go:199-202 | However many transactions run and however their statements interleave, explicit FOR UPDATE waits (seats by id, then headers by id; one header for cancel and confirm) never form a cycle |
| `Deadlock.StoppedMeansWaiting` | internal/sqlc/reservations.sql.go:505-512 | A statement that takes an explicit FOR UPDATE lock and could run with no locks around is stopped exactly when some other transaction holds its row |
| `Deadlock.TargetAbove` | internal/sqlc/reservations.sql.go:564-570 | A waiting transaction holds nothing at or above the row it waits for |
| `Serial.ApplyKeepsInv` | internal/modules/reservations/service.go:61-498 | Every legal operation keeps the invariant: constraints, counter conservation and header agreement |
| `Serial.SweepFrees` | internal/modules/reservations/service.go:225-240 | After the sweep nothing active is left on seats that were bookable |
| `Runs.RunKeepsInv` | internal/modules/reservations/service.go:61-498 | The invariant holds at every point of every run |
| `Runs.RunEvolves` | internal/modules/reservations/service.go:344-381 | Over any run rows only move from reserved to one final status |
| `Runs.LeavingLeaves` | internal/modules/reservations/service.go:677-775 | An operation takes out of `reserved` exactly the reservations it says it takes, and leaves every other header as it was |
| `Runs.LeavesOnce` | internal/modules/reservations/service.go:339-381 | Two operations of one run never take the same reservation out of `reserved` |
| `Runs.DeadlineRespected` | internal/modules/reservations/service.go:932-934 | What expires was due, and what is cancelled or confirmed was not overdue, at the operation's clock reading; for the sweep this uses that holds carry the header's deadline |
| `Runs.OneTakePerKey` | internal/modules/reservations/service.go:78-91 | A second take under one (session, key) is impossible in a run |
| `Invariant.OneKindOfChild` | internal/modules/reservations/service.go:112-136 | A quantity reservation has items and no holds, a seats reservation has holds and no items |
| `Invariant.CatalogueOk` | db/migrations/000001_init.up.sql:30-62 | A catalogue with stock and no reservations satisfies the invariant, so reachable states exist |
| `Settlement.SettleKeepsInv` | internal/modules/reservations/service.go:677-775 | Cancelling, confirming or expiring any set of reservations keeps the invariant |
| `Settlement.SettleKeepsConservation` | internal/modules/reservations/service.go:792-823 | The items that leave `reserved` (and arrive in `confirmed`) weigh exactly what leaves and enters the counters, ticket type by ticket type |
| `Settlement.OwnedCovered` | internal/sqlc/reservations.sql.go:592-599 | When counters equal item sums, the reserved counter covers all items of any set of reservations together |
| `Settlement.SettleTwice` | internal/modules/reservations/service.go:486-491 | Settling two sets one after the other is settling their union |
| `Settlement.SettleNothing` | internal/sqlc/reservations.sql.go:187-193 | Settling reservations that have left `reserved` changes nothing |
| `Settlement.SweepSettles` | internal/modules/reservations/service.go:225-240 | The set-based sweep of seat reservations is a settlement: there is no stock to release |
| `Lifecycle.SettleOneSettles` | internal/modules/reservations/service.go:677-775 | In a reachable state the one-reservation code, which touches only the child table its type names, has the effect of the set-based settlement |
| `Lifecycle.NeverBroken` | internal/modules/reservations/service.go:792-814 | From any reachable state a reserved reservation can be settled: ErrReservationInvariantBroken never happens |
| `Lifecycle.FinishMeaning` | internal/modules/reservations/service.go:325-457 | From any reachable state a cancel or confirm answers not found, changing nothing, exactly when the reservation is missing or is of another session and not of the visitor's user. Otherwise a final reservation stays as it is, and a reserved one becomes expired from its deadline on and else what was asked for, with all its items, holds and counters and nothing else. The answer describes the new state, and is an error, naming the operation, exactly when the reservation is not in the wanted status |
| `Lifecycle.SettleTouches` | internal/modules/reservations/service.go:677-775 | Cancelling, confirming or expiring changes the status of the listed headers and of all their items and holds, takes their quantities off the reserved counters, adds them to the sold ones only for a confirmation, and changes nothing else in the six tables |
| `Lifecycle.FinishTwice` | internal/modules/reservations/service.go:349-352 | Cancel and confirm are idempotent: a repeat at any later clock reading changes nothing and gives the same answer, errors included |
| `Lifecycle.OverdueBranchExpires` | internal/modules/reservations/service.go:360-371 | The overdue branch of cancel and confirm commits exactly what the worker would, while reporting an error |
| `Lifecycle.ExpireEachSettles` | internal/modules/reservations/service.go:745-775 | Expiring a list one reservation at a time, in any order, equals expiring the set at once |
| `Lifecycle.ExpireEachSettleable` | internal/modules/reservations/service.go:486-491 | No reservation of such a list fails on the way |
| `Lifecycle.SweepIsExpireEach` | internal/modules/reservations/service.go:225-240 | The sweep's two bulk UPDATEs equal folding expireLockedReservation over the same list in any order |
| `Lifecycle.ResponseCoherent` | internal/modules/reservations/service.go:872-915 | In a reachable state a response lists at least one child, none of the other type, and each in the header's status |
| `Lifecycle.ResponseLists` | internal/modules/reservations/service.go:872-915 | In any state the response has the id, status, type and deadline of the header, and one detail with the stored values for every child row of that type, in the order of (ticket type, row) or (seat, row) |
| `StockLoops.ReleaseReservedQuantityItems` | internal/modules/reservations/service.go:781-824 | Succeeds exactly when some item is still reserved and every counter covers the reserved items together; then every counter has dropped by the sum of its items and all of them carry the target status |
| `StockLoops.ConfirmReservedQuantityItems` | internal/modules/reservations/service.go:830-868 | Succeeds under the same exact condition; then every counter has moved the sum of its items from reserved to sold |
| `Service.Service.CancelLockedReservation` | internal/modules/reservations/service.go:677-707 | Succeeds exactly when the reservation is settleable, with the effect of settling it as cancelled |
| `Service.Service.ConfirmLockedReservation` | internal/modules/reservations/service.go:711-741 | Succeeds exactly when the reservation is settleable, with the effect of settling it as confirmed |
| `Service.Service.ExpireLockedReservation` | internal/modules/reservations/service.go:745-775 | Succeeds exactly when the reservation is settleable, with the effect of settling it as expired |
| `Service.Service.CancelReservation` | internal/modules/reservations/service.go:325-390 | Every branch: not found and foreign, already cancelled, already final, overdue (expires and still errors), cancelled, broken invariant (rolled back); the tables and the answer are fixed in each |
| `Service.Service.ConfirmReservation` | internal/modules/reservations/service.go:397-457 | Every branch of confirm, likewise |
| `Service.Service.ExpireExpiredReservations` | internal/modules/reservations/service.go:463-498 | A non-positive batch size is refused; an error rolls the whole batch back; from a reachable state there is none, and the first batchSize reservations past their deadline by (expires_at, id), or all of them, expire with their rows and counters and nothing else; processed counts them |
| `Service.Service.ReserveQuantity` | internal/modules/reservations/service.go:61-148 | Every outcome of a quantity request run alone: invalid input, replay, insufficient stock, key collision and its replay, success; anything but success leaves the tables as they were |
| `Service.Service.ReserveSeats` | internal/modules/reservations/service.go:155-291 | Every outcome of a seat request run alone: invalid input, replay, missing seats, sweep, key collision and its replay, unavailable seat (rolled back, sweep included), success |
| `Service.Service.ReplayQuantity` | internal/modules/reservations/service.go:502-515 | Answers with the stored quantity reservation, or reports a key conflict when there is none |
| `Service.Service.ReplaySeats` | internal/modules/reservations/service.go:519-532 | Answers with the stored seats reservation, or reports a key conflict when there is none |
| `Service.Service.SweepOverdue` | internal/modules/reservations/service.go:215-240 | List, lock, and two bulk UPDATEs, skipped when the list is empty: exactly the overdue holders of the requested seats are expired, with all their holds |
| `Service.Service.InsertSeatRows` | internal/modules/reservations/service.go:258-279 | The insert loop succeeds exactly when no seat has an active hold left and no generated id is taken; then there is one reserved row per seat, in order |
| `Service.Service.BuildReservationResponse` | internal/modules/reservations/service.go:872-915 | The loops over the child rows build, after the transition, the response that ResponseLists describes |
| `Service.Service.FindSeats` | internal/modules/reservations/service.go:640-654 | The seat rows of a key are turned into one answer, seat by seat |
| `Service.LockedAll` | internal/modules/reservations/service.go:199-208 | The sameUUIDSet test passes exactly when every requested seat exists in the event, and then the locked ids are the requested ids in the same order |
| `Booking.ReserveQuantityMeaning` | internal/modules/reservations/service.go:61-148 | From a reachable state. Insufficient stock exactly when no quantity reservation has the key and the type is not the event's or has too little left; key conflict exactly when there is stock and a seats reservation has the key; a stored key is answered as recorded. Otherwise the counter grows by the quantity, one header with the session, user, key and deadline of the request and one item are new, and nothing else has changed |
| `Booking.ReserveSeatsMeaning` | internal/modules/reservations/service.go:155-291 | From a reachable state. Seats not found exactly when no seats reservation has the key and some seat is not the event's; key conflict exactly when the seats exist and a quantity reservation has the key; seat unavailable exactly when key and seats are right and some seat has a confirmed hold or a reserved one due after the listing; a stored key is answered as recorded. Otherwise the holders of due holds are expired with all their holds, one header and one hold per seat are new, and nothing else has changed |
| `Booking.InsertableIffBookable` | internal/modules/reservations/service.go:225-274 | After the sweep the unique index admits all inserts exactly when the seats were bookable before it |
| `Booking.TakenIsFound` | internal/sqlc/reservations.sql.go:200-216 | A taken key is found by exactly one of the two replay queries |
| `Booking.LookupQuantityFinds` | internal/sqlc/reservations.sql.go:200-216 | The joined LIMIT 1 query answers exactly when a quantity reservation owns the key, and answers with that reservation |
| `Booking.LookupQuantityReads` | internal/sqlc/reservations.sql.go:200-216 | The quantity answer has the status, type and deadline of the header stored under the key, and type and quantity of the first of its items by id |
| `Booking.LookupSeatsFinds` | internal/sqlc/reservations.sql.go:300-314 | The joined seat query answers exactly when a seats reservation owns the key, and answers with that reservation |
| `Booking.LookupSeatsReads` | internal/sqlc/reservations.sql.go:300-314 | The seats answer has the status, type and deadline of the header stored under the key, and the seat of every one of its holds, in order |
| `Booking.QuantityTakenIsAnswered` | internal/modules/reservations/service.go:142-143 | Right after a take, the replay query returns the response the take gave |
| `Booking.SeatsTakenAreAnswered` | internal/modules/reservations/service.go:281-282 | Right after a take, the replay query returns the seats that were asked for, in the same order |
| `Idempotency.AnswerDescribesTheTake` | internal/modules/reservations/service.go:78-91 | At any later point of a run a retry, whatever its payload, is told about the reservation the first request made, in its current status |
| `Idempotency.QuantityAnswerStays` | internal/modules/reservations/service.go:502-515 | A quantity answer stays the same in every later state but for the status |
| `Idempotency.SeatsAnswerStays` | internal/modules/reservations/service.go:519-532 | A seats answer stays the same, seat by seat, in every later state but for the status |
| `Idempotency.ReplayConflictsOnOtherKind` | internal/modules/reservations/service.go:502-532 | After a key collision the replay reports a conflict exactly when the stored reservation is of the other type |
| `Idempotency.ReplayableIsFound` | internal/modules/reservations/service.go:78-91 | What the opening read of an interleaved reserve looks for is there exactly when the lookup of the serial code answers, for either kind |
| `Idempotency.InterleavingsAnswerTheSame` | internal/modules/reservations/service.go:78-91 | In any interleaved run an answer given once is the answer at every later moment, and a request of the other type conflicts from then on |
| `Statements.QuantityKeyRead` | internal/modules/reservations/service.go:78-91 | In a reachable state the opening read of an interleaved quantity request ends it exactly when a quantity reservation is stored under its session and key, and else lets it go on |
| `Statements.SeatsKeyRead` | internal/modules/reservations/service.go:170-185 | Likewise for a seat request and a stored seats reservation |
| `Retries.RetryCompletes` | internal/modules/reservations/service.go:78-91 | From any moment of any run, a retry that finds a reservation of its own kind under its key can commit, and changes nothing |
| `Retries.OtherKindNeverCommits` | internal/modules/reservations/service.go:121-143 | From the moment a key is held by a reservation of the other kind, a reserve with that key never comes to a commit, wherever it is and however the run goes on |
| `Retries.AnsweredIsStored` | internal/modules/reservations/service.go:78-91 | At every moment of any run a reserve that has been answered without taking anything has a reservation of its own kind stored under its key |
| `Ownership.InterleavingsKeepTakes` | internal/modules/reservations/service.go:112-136 | At the end of any interleaved run every committed take is still described by the tables: the session, user, event, type, key and deadline of its header, its one item with type and quantity, or exactly its holds, each with seat and deadline |
| `Ownership.TakeStaysDescribed` | internal/modules/reservations/service.go:112-136 | The same between a take and any later moment of a serial run |
| `Ownership.OnlyOwnersReach` | internal/modules/reservations/service.go:919-926 | After any interleaved run a cancel or confirm of a taken reservation is answered not found, and changes nothing, exactly when it comes neither from the session that took it nor from a session of the same user |
| `Ownership.OnlyOwnersFinish` | internal/modules/reservations/service.go:346-348 | No run commits a cancel or confirm of a taken reservation but for the session that took it or one of the same user, and none before it was taken |
| `Worker.BatchesExpireEarliest` | internal/modules/reservations/service.go:463-498 | After k batches of b the first k*b reserved reservations past their deadline by (expires_at, id), or all of them if they are fewer, have expired with all their items and holds, their quantities have left the reserved counters, and nothing else has changed: no row came or went |
| `Worker.BatchesExpirePrefix` | internal/modules/reservations/service.go:463-498 | k batches equal one settlement of the first k*b reservations of the queue, the rest of the queue is what remains, and the invariant holds |
| `Worker.BatchesDrain` | internal/modules/reservations/service.go:463-498 | No reserved reservation past its deadline is left after k batches exactly when k*b is at least their number at the start |
| `Worker.QueueShrinks` | internal/sqlc/reservations.sql.go:389-397 | Expiring a prefix of the queue leaves the rest of it, in order |
| `Worker.RunBatches` | internal/worker/expiration.go:36-38 | Calling the batch operation k times has that effect and processes as many reservations as expire |
| `Queries.Database.ReserveTicketQuantity` | internal/sqlc/reservations.sql.go:625-632 | Adds to the counter exactly when the type belongs to the event and enough is free; constraints stay true and no int32 step overflows |
| `Queries.Database.ReleaseTicketQuantity` | internal/sqlc/reservations.sql.go:592-599 | Subtracts exactly when the reserved counter covers the quantity; constraints stay true, no underflow |
| `Queries.Database.ConfirmTicketQuantity` | internal/sqlc/reservations.sql.go:14-22 | Moves from reserved to sold exactly when the reserved counter covers the quantity; constraints stay true, no overflow |
| `Queries.Database.UpdateReservationItemsStatus` | internal/sqlc/reservations.sql.go:659-665 | Marks the still-reserved items of one reservation only, and keeps the constraints |
| `Queries.Database.UpdateReservationSeatsStatus` | internal/sqlc/reservations.sql.go:678-684 | Marks the still-reserved holds of one reservation only, and keeps at most one active hold per seat |
| `Queries.Database.UpdateReservationStatus` | internal/sqlc/reservations.sql.go:697-703 | Overwrites the header status whatever it was, and keeps the constraints |
| `Queries.Database.ExpireReservationSeatsByReservationIDs` | internal/sqlc/reservations.sql.go:174-180 | Expires the still-reserved holds of the listed reservations only |
| `Queries.Database.ExpireReservationsByIDs` | internal/sqlc/reservations.sql.go:187-193 | Expires the listed reservations that are still reserved, and no other |
| `Queries.Database.CreateReservation` | db/migrations/000001_init.up.sql:66-84 | Unique violation exactly when the id or the (session, key) is taken, a missing event is rejected, and otherwise one row is added; constraints stay true |
| `Queries.Database.CreateReservationItem` | db/migrations/000001_init.up.sql:90-101 | Succeeds exactly when id, quantity CHECK and both references allow it |
| `Queries.Database.CreateReservationSeat` | db/migrations/000001_init.up.sql:106-124 | Unique violation exactly when the id is taken or the seat already has an active hold |
| `Queries.Database.ListExpiredReservationsForUpdate` | internal/sqlc/reservations.sql.go:389-397 | The reserved reservations strictly past their deadline by (expires_at, id): the first limit of them, or all |
| `Queries.Database.LockEventSeats` | internal/sqlc/reservations.sql.go:505-512 | The requested seats that exist in the event, by ascending id |
| `Queries.Database.ListExpiredActiveReservationIDsForSeats` | internal/sqlc/reservations.sql.go:355-362 | The distinct reservations with an overdue reserved hold on a requested seat, by ascending id |
| `Queries.Database.GetSeatReservationByIdempotencyKey` | internal/sqlc/reservations.sql.go:300-314 | One row per hold of the key's seats reservation, by seat id |
| `Queries.Database.ListReservationItems` | internal/sqlc/reservations.sql.go:435-440 | All items of one reservation by (ticket_type_id, id) |
| `Queries.Database.ListReservationSeats` | internal/sqlc/reservations.sql.go:470-475 | All holds of one reservation by (seat_id, id) |
| `Queries.Database.Rollback` | internal/db/tx.go:23-28 | A rollback restores what the transaction saw when it began |
| `Queries.Database.DeleteStressReservations` | internal/sqlc/stress_admin.sql.go:48-51 | Deletes the reservations of the events and cascades to whatever children are left |
| `Queries.Database.DeleteStressEvents` | internal/sqlc/stress_admin.sql.go:14-17 | Cascades to ticket types and seats, and deletes nothing when a RESTRICT reference remains |
| `Queries.PrefixEarliest` | internal/sqlc/reservations.sql.go:389-397 | A prefix of the queue has the earliest reserved reservations past their deadline, in order and without repetition, all of them if they fit, and none after one left out |
| `Queries.DueQueue` | internal/sqlc/reservations.sql.go:389-397 | The queue lists each overdue reserved reservation once, by (expires_at, id) |
| `Ordering.ById` | internal/sqlc/reservations.sql.go:505-512 | ORDER BY id: each row once, strictly ascending |
| `Input.ParseQuantityInput` | internal/modules/reservations/service.go:534-550 | Accepted exactly when the quantity is positive, the key has a character that is not white space and both ids parse |
| `Input.ParseSeatInput` | internal/modules/reservations/service.go:556-586 | Accepted exactly when the key has a character that is not white space, there is a seat, everything parses and no seat is named twice; the result is strictly ascending and names exactly the requested seats |
| `Input.TrimCuts` | internal/modules/reservations/service.go:84-85 | Trimming a key cuts characters from both ends only, all of them white space, and leaves neither a leading nor a trailing one, and keeps what is between |
| `Input.SeatIdTrimmed` | internal/modules/reservations/service.go:567-572 | Each seat id is parsed without the white space around it |
| `Input.BlankTrims` | internal/modules/reservations/service.go:537-539 | A key trims to the empty one exactly when all its characters are white space |
| `Input.SortByTextSorts` | internal/modules/reservations/service.go:581-585 | Sorting by UUID text yields ascending byte values, the order SQL uses |
| `Input.SameUUIDSet` | internal/modules/reservations/service.go:656-671 | True exactly when the lengths agree and every id on the right is on the left |
| `Input.SameUUIDSetMeaning` | internal/modules/reservations/service.go:656-671 | On duplicate-free lists that test is set equality |
| `Uuid.TextOrder` | internal/db/types.go:18-33 | The text order of two UUIDs, the order of their sixteen bytes and their numeric order are the same order, and equal texts mean equal UUIDs |
| `Uuid.TextReadsBack` | internal/db/types.go:18-33 | The text has 36 characters, dashes at 8, 13, 18 and 23 only, and reading its lower-case hexadecimal digits from the left gives the UUID back |
| `Uuid.UUIDToStringInjective` | internal/db/types.go:18-33 | The text form is injective, also against values that are not valid |
| `Uuid.BytesOrder` | internal/db/types.go:18-33 | Big-endian byte arrays compare as the numbers they spell |
| `Reset.ResetFixtures` | internal/modules/stressadmin/service.go:74-84 | Refused, with nothing changed, outside development, local and test; elsewhere it deletes exactly the selected events with all they own and reports their number, or fails and changes nothing when a row reaches across events; from a reachable state it never fails and keeps the invariant |
| `Reset.DeleteFixtures` | internal/modules/stressadmin/repository.go:88-123 | From any state: succeeds exactly when no item or hold reaches from another event into a selected one, and otherwise rolls back |
| `Reset.ResetRemovesExactly` | internal/modules/stressadmin/repository.go:88-123 | A row of any of the six tables survives exactly when the event it belongs to was not selected, and survives unchanged |
| `Reset.InvContains` | db/migrations/000001_init.up.sql:92-109 | In a reachable state items and holds stay inside their reservation's event |
| `Reset.RestrictMeansEscape` | db/migrations/000001_init.up.sql:92-109 | Once the reservations are gone, a RESTRICT is hit exactly when some row reached across events |
| `Reset.WithoutKeepsInv` | internal/modules/stressadmin/repository.go:88-123 | What is left satisfies the invariant, counter conservation included |
| `Reset.PatternSelects` | internal/modules/stressadmin/service.go:16 | The pattern `__stress_seed__:%` selects the names with the reserved prefix and, because `_` is a wildcard, exactly their look-alikes |
| `Reset.ManualEventSelected` | internal/modules/stressadmin/service.go:72-84 | A concrete event name without the reserved prefix that Reset nevertheless selects |
| `Reset.OnlyReservedSelected` | internal/modules/stressadmin/service.go:72-84 | Reset selects the events with a reserved or look-alike name, and so only events with the reserved prefix exactly when no event has a look-alike name |
| `Like.PrefixMatches` | internal/sqlc/stress_admin.sql.go:298-303 | What LIKE means for a prefix followed by % |
| `Consistency.AssertConsistency` | internal/modules/stressadmin/service.go:90-237 | Over any tables: refused exactly outside development, local and test; fails exactly when the int32 sum of the oversold query overflows on some row; otherwise each flag says whether its invariant holds, the details are the violating rows in order and without repetition, and OK holds exactly when all six invariants do; in a reachable state every flag but the stale-hold one is true |
| `Consistency.OkMeansConsistent` | internal/modules/stressadmin/service.go:230-235 | The six flags are the six declarative invariants, and OK is their conjunction and the absence of details |
| `Consistency.DetailsAreTheViolations` | internal/sqlc/stress_admin.sql.go:65-74 | The details report every violating row with its stored values, nothing else, check by check and by id within a check (stale ones by deadline first), so none twice |
| `Consistency.NoDuplicatesMeansUnique` | internal/sqlc/stress_admin.sql.go:65-74 | GROUP BY ... HAVING COUNT(*) > 1 is empty exactly when no seat has two active holds |
| `Consistency.EmptyMeansPassed` | internal/sqlc/stress_admin.sql.go:101-270 | The other five violation queries are empty exactly when what they check holds |
| `Consistency.ReachableStatesPass` | internal/modules/stressadmin/service.go:204-228 | In every reachable state no query fails and five of the six checks hold; all six hold exactly when no reserved reservation is overdue by more than sixty seconds |
| `Inventory.EachSeatOnce` | internal/sqlc/events.sql.go:121-139 | Because a seat has at most one active hold, the LEFT JOIN lists each seat of the event exactly once, strictly in order |
| `Inventory.CollectSeats` | internal/sqlc/events.sql.go:150-173 | The collected rows carry the seat and the status of its join row, one for one |
| `Inventory.StatusMeans` | internal/sqlc/events.sql.go:121-139 | available can be reserved at any time, confirmed never, and reserved exactly from the hold's deadline on, although the view still says reserved |
| `Inventory.BookableSeatBySeat` | internal/modules/reservations/service.go:225-274 | Several seats can be reserved together exactly when each can be on its own |
| `Inventory.AvailabilityMeans` | internal/sqlc/events.sql.go:212-224 | available_quantity is the total less all reserved and confirmed items, and a quantity can be reserved exactly when it is at most that |
| `Inventory.AvailableQuantity` | internal/sqlc/events.sql.go:212-224 | The int32 subtraction never overflows and is never negative |

## Left out

- Completion.SettlementCompletes: says that a settlement can go on to its commit, not that it must; the same holds for `ReserveCompletion`.
- Deadlock.NoWaitCycle: covers explicit FOR UPDATE row locks only; ticket-type rows are locked in no global order by worker batches, and unique-index waits are outside the claim.
- Idempotency.AnswerDescribesTheTake: a retry that races with the first request for the last units may be answered with insufficient stock; resets are not part of a run.
- Inventory.EachSeatOnce: the collation behind ORDER BY section, row_name, seat_number is an arbitrary ranking of the seats; the ticket-type list's ORDER BY name is not modelled.
- Input.ParseSeatInput: UUID parsing is a library call and enters as an arbitrary function; sort.Slice is an insertion sort.
- Service.Service.ReserveSeats: a generated id that collides is treated as the code treats any unique violation, not as impossible.
- Users and visitor sessions: a session is an id with an optional user id; their tables, foreign keys, cookies, tokens and passwords are not modelled.
- HTTP handlers, routing, middleware, JSON, response formatting beyond which rows are shown: no state of their own.
- GetReservation and the read-only repository calls: the response builder they share is covered, the access check is the one of cancel and confirm.
- PostgreSQL internals: statements are atomic, exclusive row locks last to the end of the transaction, READ COMMITTED; FOR KEY SHARE locks taken by foreign keys, the deadlock detector, MVCC storage and connection failures other than rollback are not modelled.
- created_at, updated_at, last_seen_at and event times: no rule depends on them.
- Creation of events, ticket types, seats and stress fixtures: simple inserts; `Invariant.CatalogueOk` admits any such catalogue as an initial state.
- The worker's ticker and shutdown: only repeated batches are modelled.
- Redis, configuration, startup, Docker and load scripts: outside the protocol.
