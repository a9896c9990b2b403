# Verified model of the group-buy market

A Dafny model of the trading core of the group-buy service: joining a team (lock), paying (settlement), refunding,
and the pieces that keep MySQL, Redis and RabbitMQ in step around these three. The project proves what holds in
every run of the model, however requests interleave and whatever fails in between.

Verify it with `dafny verify dfyconfig.toml`, or with all `.dfy` files on one command line.

## What is modelled

**The trade protocol.** The count of a team's seats lives in four places: the counters of `group_buy_order`, the
statuses of `group_buy_order_list`, the Redis stock, recovery, slot and refund-lock keys, and the `notify_task` rows.

- `TradeModel`, `TradeTransactions`: the rows, and each MySQL transaction as a function of the tables.
- `TradeInvariant`: what the tables satisfy, and that every transaction keeps it with any snapshot.
- `TradeProtocol`: a labelled step system. Every database read, every transaction, every Lua script and every single
  Redis command is one step. A request is a process that carries what it read until it uses it. Any step may fail,
  a compensation may be lost, a consumer may die, a slot key may expire, and steps of all processes interleave freely.
- `TradeSafety`, `TradeTheorems`: the invariant, its preservation by every step, and what follows for all runs.
- `TradeDeadlines`: the end of a team and of an order, and that no late payment counts. Points in time are in seconds, an
  activity's valid time is in minutes.
- `RepeatedRequests`: the answer to a request submitted again, without the assumption on pairs below.
- `TradeSerial`: what holds beyond that when a transaction finds the team it read, as in a serial execution.
- `TradeScenarios`, `TradeLimits`: pieces of runs, and from them the runs that show what is false and what the
  assumptions below are needed for.
- `TimeoutRefund`, `TimeoutStarvation`: the job that refunds expired unpaid orders, and a run that starves it.
- `TradeRepository`, `RedisStore`, `TradeServices`, `RefundConsumer`: the classes that change these stores in place,
  each method proved equal to its transaction, script or sequence of protocol steps, and its answer and every row it
  leaves stated once more by columns, without these functions. `RedisStore` works on the real string keys.

**The notify outbox.** `NotifyTask` has the status table and the delivery loop, `Outbox` all interleavings of one
asynchronous executor per task with the passes of the job, each on its own old snapshot, `OverlappingPasses` the same
for passes that run at the same time, `LeaseLock` the Redis lease lock over timed runs.

**Smaller parts.** `Dcc` (configuration broadcast), `KeyScheme` (`itoa` and every key glued together with `_`),
`Chain` (the heap-linked responsibility chain), `Counting` (SELECT COUNT over an append-only table).

## Assumptions

The code does not enforce these. The first two are visible hypotheses of every run (`TradeProtocol.Assumed`), and speak
only of join transactions that commit: one that is refused, as for a request submitted twice, may name any pair and any
activity. The third is a hypothesis of every theorem (`TradeInvariant.ActivitiesOk`).

- A `(user, out_trade_no)` pair is not used for a second order (`FreshPair`). The index on the pair is not unique, and
  the request is only answered with the old order while that is unpaid. `ReusedPairCreditsWrongTeam` is a run that uses
  a pair twice, and `SettlementCreditsOwnTeamExactly` says when a settlement then counts for the wrong team.
  `RepeatedRequests` does without this assumption.
- A join names the team's own activity (`OwnTeam`). The update matches `team_id` alone. `ForeignActivityBreaksSeats`
  shows that the seat accounting then fails, and only then.
- An activity's target is at least 1, and its target and take limit do not change.
- A Redis error means that the command did not run, and `refund_lock_` keys do not expire within the run.
- A team id is plain: it is not another team's id followed by `_recovery` or by `_` and a number. The ids the server
  draws, of digits, are plain (`DigitTeamsArePlain`); an id that comes with a request need not be. The protocol's keys
  are pairs, so it assumes this of every id; `RedisStore` works on the strings, for every id.
- In `Outbox`, passes of the notify job exclude each other. Their lock is the one of `LeaseLock`, which keeps them apart
  as long as a pass ends within its lease of 50 seconds. `OverlappingPasses` says what is left without this.

Modelling choices: an order id is the row's number in the append-only table; a process or a message keeps its place in
a list after it has finished; `credits`, `lost`, `stuck`, `delivered` and `dropped` are history that no code reads. A
team id drawn at random may be taken already, and the insert then fails on the unique key.

## What the proofs show about the code

- *All seats paid does not mean formed.* The test for the last payer uses the count read before the transaction. Two
  members whose payments overlap both miss it: `CompleteTeamUnformed` is such a run from the empty system, and
  `FormsExactlyWhenFresh` says exactly when the filling payment forms the team.
- *Formed does not mean all seats paid.* A paid member can be refunded between the last payer's read and commit: the
  team is marked formed one payment short, with a settlement list one order short (`FormedTeamIncomplete`). Or a refund
  has read the team before a last payer with a true count forms it, and then takes the payment out of the formed team
  without changing its status: the list names an order that is closed (`FormedTeamLosesPayment`).
  `FormedAndFullPartExactly` says which committed writes part the two, in either direction, and that no others do.
- *A team that left status 0 and lacks a payment*, because members were refunded or because it was formed too early,
  still accepts joins and payments. The payment that would fill it commits exactly when its snapshot is stale
  (`BrokenTeamRefusesLastPayment`): one at a time such a team never fills up, but two overlapping payments fill it, in
  status 2 (`FailedTeamFullAgain`) or 3 (`CompleteFailTeamFullAgain`). An unpaid order of such a team has no refund
  strategy (`GetRefundStrategy`).
- *A repeated request is answered with the old order only while the pair's first order is unpaid.* As long as requests for
  a pair come one after the other, an unpaid first order is the only one of its pair, whatever else interleaves
  (`OnlyOrderWhileUnpaid`). Once that one is paid or closed the check no longer helps: the same request, repeated twice,
  leaves two unpaid orders (`TwoUnpaidInTurn`), and from any such state one more follows (`TwoUnpaidFollow`). Two requests
  at the same time get there at once (`TwoUnpaidAtOnce`).
- *The timeout job can be starved.* It takes ten expired orders at a time, and cannot close those whose team has left
  status 0. With fewer than ten of these every pass makes progress until nothing is left to close
  (`TimeoutRefundJob.Passes`); with ten, the query may return nothing else for ever (`PassCanStarve`), and such a state
  is reached by ten teams of one seat that are opened, paid, refunded and joined again (`StarvedJobReachable`).
- *A task is never marked failed.* The comment in the delivery loop says that more than four failures give status 3. The
  status table has no entry from Retry to Retry, a count stops growing at 4, and status 3 is never written
  (`NeverGivenUp`), unless two passes overlap (`ErrorNeedsOverlap`). Undelivered tasks stay pending, and are picked up as
  long as fewer than fifty older ones are pending (`UndeliveredIsSelected`); fifty that are never delivered keep all
  newer ones out for ever (`StarvedTaskIsNeverHeld`).
- *A success can be overwritten*, because the updates have no status guard. `SuccessSurvivesExactly` says when it
  cannot: when the task's executor has no failure left to write, and no running pass has read the task as new without
  being about to write a success, or nothing.
- *A refund lock left behind loses the seat.* If a consumer dies between SETNX and INCR, or if INCR and then DEL fail,
  the recovery never happens (`StuckNeverRecovers`), and the messages are acknowledged all the same
  (`DeathLosesSeat`, `LostSeatReachable`); in all other cases it happens exactly once (`RecoveredExactlyOnce`).
- *A team id ending in `_recovery` moves another team's quota.* Each granted join under it lets one more join of the
  other team through the Redis gate (`RecoveryIdRaisesQuota`); the table guard still holds. An id that ends in the
  number of another team's next slot closes that team's gate (`SlotIdClosesGate`), for good: the script's INCR creates the
  slot's key, without an expiry.
- *The broadcast echo is needed.* The comment calls an instance's own message harmless; without it two concurrent
  changes end with the instances apart (`EchoIsNeeded`).
- *The lease lock is only as good as the lease.* Exclusion breaks exactly when an executor is still inside a key whose
  lease has run out (`OverstayingBreaksExclusion`). `Unlock` deletes whatever lock is there, so that one overstaying
  executor then lets a second newcomer in (`OverstayerUnlocksTheNext`).
- *`itoa` of the smallest int64 is `-`*, because negating it changes nothing.

## Model

| member | source | states |
|---|---|---|
| TradeTheorems.SeatAccounting | internal/infrastructure/repository/trade_repository.go:429-502 | In every reachable state, stock = recovery + (lock_count - 1) + joins that hold a seat + lost compensations + closed orders not yet recovered; the table terms are 0 for a key without a team row |
| TradeTheorems.CounterConservation | internal/infrastructure/repository/trade_repository.go:512-605 | In every reachable state lock_count is the number of the team's orders in status 0 or 1, complete_count the number in status 1, and 0 <= complete <= lock <= target |
| TradeTheorems.SlotIsFree | internal/infrastructure/repository/trade_repository.go:437-442 | The slot keys present are among 1..stock, so the script's SET NX never refuses and the quota alone decides |
| TradeTheorems.SlotExpiryIsHarmless | internal/infrastructure/repository/trade_repository.go:437-442 | A slot key that expires changes the answer of no join, for any team and quota |
| TradeTheorems.GateAdmitsExactly | internal/infrastructure/repository/trade_repository.go:429-444 | The Redis gate admits a join of an existing team exactly when lock_count, joins in flight, lost compensations and unrecovered refunds together leave a seat |
| TradeTheorems.NoWrongfulRefusal | internal/infrastructure/repository/trade_repository.go:429-444 | With nothing in flight, lost or unrecovered, the gate admits whenever the table guard would (a free seat), and a full team once more |
| TradeTheorems.AdmissionBound | internal/infrastructure/repository/trade_repository.go:429-444 | stock <= target + recovery always, and at most one join gets past the gate beyond the seats the table has |
| TradeTheorems.FailedJoinReturnsSeat | internal/domain/trade/service/lock/trade_lock_order_service.go:64-68 | A join of an existing team whose transaction fails raises its recovery counter by one or, if that fails too, the number of lost seats, and changes nothing else |
| TradeTheorems.TakeLimitHolds | internal/domain/trade/service/lock/filter/filters.go:49-60 | Although counts are read without a lock, a user's biz_id suffixes in an activity are exactly 1..n, n the number of their orders, and n never exceeds a positive take limit |
| TradeTheorems.LockOutcome | internal/infrastructure/repository/trade_repository.go:70-169 | A lock transaction commits if and only if the order count it carries is still true and there is a seat (or the new team id is unused) |
| TradeTheorems.SettlementOutcome | internal/infrastructure/repository/trade_repository.go:253-351 | A settlement commits if and only if its order is unpaid and, when its snapshot says last payer, the team is in progress; complete_count < target_count never decides |
| TradeTheorems.FormsExactlyWhenFresh | internal/infrastructure/repository/trade_repository.go:288-298 | The payment that fills a team in progress marks it formed if and only if the complete_count it read is still true |
| TradeTheorems.FormedIsFullExactlyWhenFresh | internal/infrastructure/repository/trade_repository.go:288-347 | A settlement that marks a team formed leaves complete_count = target_count if and only if the count it read is still true, and its task lists as many orders as are paid then |
| TradeTheorems.BrokenTeamRefusesLastPayment | internal/infrastructure/repository/trade_repository.go:288-298 | In every interleaving, for a team that has left status 0: with a fresh snapshot the payment of an unpaid order commits exactly when it does not fill the team; the filling one commits exactly when its snapshot is stale |
| TradeTheorems.FormedAndFullPartExactly | internal/infrastructure/repository/trade_repository.go:288-298 | In every reachable state in which a team is formed exactly when full, a step ends that if and only if it commits a filling payment with a stale count, a payment whose stale count says last payer, or a refund by the unformed strategy in a formed team |
| TradeTheorems.FormedIsFullUntilParted | internal/infrastructure/repository/trade_repository.go:288-298 | In every run without those writes, every team is formed exactly when it is full |
| TradeTheorems.RefundOutcome | internal/infrastructure/repository/trade_repository.go:512-605 | A refund transaction commits if and only if the order still has the status its strategy was chosen for |
| TradeTheorems.RefundedTeamStatus | internal/infrastructure/repository/trade_repository.go:532-547 | After PaidTeam2Refund the status is 2 if no paid order is left in the table and 3 otherwise; the other two refunds leave the status, even of a team that was formed since they read it |
| TradeTheorems.StatusStepsForward | internal/infrastructure/repository/trade_repository.go:288-298 | Every step of every interleaving moves a team's status along 0 to 1, 1 to 3 or 2, 3 to 2, or not at all |
| TradeTheorems.StatusesOnlyMoveForward | internal/infrastructure/repository/trade_repository.go:512-563 | Between any two points of a run team and order statuses only move forward; a failed team and a closed order are final, although PaidTeam2Refund writes the status without a guard |
| TradeTheorems.OutboxMirrorsTables | internal/infrastructure/repository/trade_repository.go:607-636 | In every interleaving a team has one settlement task exactly when its status is not 0, and an order one refund task exactly when it is closed; otherwise none |
| TradeTheorems.RecoveredAtMostOnce | internal/infrastructure/repository/trade_repository.go:478-502 | The recovery counter rises at most once for an order, and only for a closed one, under any redelivery, concurrency, failure or death |
| TradeTheorems.RecoveredExactlyOnce | internal/infrastructure/repository/trade_repository.go:478-502 | Once an order's messages are handled, and there was one, its seat came back exactly once, or never if a lock was left behind |
| TradeTheorems.StuckNeverRecovers | internal/infrastructure/repository/trade_repository.go:489-498 | A refund lock left behind stays, and while it does the order is neither recovered nor under recovery |
| TradeTheorems.RunKeepsInv | internal/domain/trade/service/lock/trade_lock_order_service.go:45-70 | The invariant holds at the end of every run from the empty system |
| TradeTheorems.RunEvolves | internal/infrastructure/repository/trade_repository.go:253-351 | Between any two points of a run nothing is deleted, identities are kept and everything moves forward |
| TradeDeadlines.NoLatePaymentCounts | internal/domain/trade/service/settlement/filter/filters.go:62-70 | In every reachable state an order's payment time is before the end of its team, and its own end is its activity's |
| TradeDeadlines.SettlementReadsExactly | internal/domain/trade/service/settlement/filter/filters.go:43-73 | The order read goes on if and only if the store answers and the first order of the pair is not closed; the team read if and only if the store answers, the team exists and the payment is before its end |
| TradeDeadlines.NewTeamEnds | internal/infrastructure/repository/trade_repository.go:77-111 | A step that adds a team is a join's transaction; the team ends validTime minutes after the clock of that step, with the target of its activity, one seat taken and none paid |
| TradeDeadlines.TeamEnds | internal/infrastructure/repository/trade_repository.go:82-106 | In every run each team was opened by one of its steps, and still ends that long after the clock of that step, however long the run went on |
| RepeatedRequests.JoinReadsExactly | internal/application/market_trade_app.go:52-68 | Each read of a join goes on if and only if the store answers and the first order of the pair is not unpaid; the team is not full; the activity exists and the user is within its take limit |
| RepeatedRequests.OnlyOrderWhileUnpaid | internal/application/market_trade_app.go:52-58 | In every run in which joins of a pair come one after the other, and with any activity and any use of pairs: of two orders of the pair, the first of the pair has been paid or closed; so two are unpaid only behind such a one |
| RepeatedRequests.Reopens | internal/application/market_trade_app.go:52-58 | From every state of such a run in which the first order of a pair is not unpaid, one more request that opens a team inserts one more unpaid order |
| RepeatedRequests.TwoUnpaidFollow | internal/application/market_trade_app.go:52-58 | So where one of its later orders is unpaid, two are |
| RepeatedRequests.TwoUnpaidInTurn | internal/application/market_trade_app.go:52-58 | A run from the empty system, with the requests of a pair one after the other, to two unpaid orders of it |
| RepeatedRequests.TwoUnpaidAtOnce | internal/application/market_trade_app.go:52-58 | A run in which two requests of a pair at the same time both pass the check: two unpaid orders and no other |
| TradeSafety.StepKeepsInv | internal/domain/trade/service/lock/trade_lock_order_service.go:45-70 | Every step of every process, with any snapshot and any failure, keeps the invariant |
| TradeSafety.ProcStable | internal/domain/trade/service/refund/filter/filters.go:28-95 | What a process knows from its reads survives whatever others do; in particular a refund that read a formed team still has a formed team while its order is paid |
| TradeSafety.CompensateKeepsInv | internal/domain/trade/service/lock/trade_lock_order_service.go:64-68 | Giving a seat back, or losing it, after a failed lock keeps the accounting |
| TradeSafety.RecoveringIsExclusive | internal/infrastructure/repository/trade_repository.go:482-498 | A consumer between SETNX and INCR or DEL is alone with its order, which is closed and not yet recovered |
| TradeInvariant.StaleCountCaught | internal/infrastructure/repository/trade_repository.go:130-157 | The unique biz_id refuses an insert exactly when the order count it was built from is stale |
| TradeInvariant.LockTxOk | internal/infrastructure/repository/trade_repository.go:70-169 | A committed lock keeps counters, tasks, pairs and take limits in order, whatever count it read |
| TradeInvariant.SettleTxOk | internal/infrastructure/repository/trade_repository.go:253-351 | A committed settlement counted its own order, stored a task exactly when its snapshot said last payer, and keeps the tables in order |
| TradeInvariant.SettleFindsRow | internal/infrastructure/repository/trade_repository.go:261-273 | With unique pairs the update matches one row if the order read is unpaid, that very row, and none otherwise |
| TradeInvariant.SettleGuardHolds | internal/infrastructure/repository/trade_repository.go:275-286 | Once the order update found its unpaid row, complete_count is below target_count |
| TradeInvariant.RefundTxOk | internal/infrastructure/repository/trade_repository.go:512-605 | A committed refund keeps the tables in order and moves statuses forward |
| TradeSerial.SerialRunOk | internal/infrastructure/repository/trade_repository.go:275-305 | Serial runs keep, beyond the invariant, that status 1 is completeness and that settlements list target orders |
| TradeSerial.FormedIsComplete | internal/infrastructure/repository/trade_repository.go:288-298 | In serial runs a team is in status 1 exactly when complete_count = target_count, and then has no unpaid order |
| TradeSerial.BrokenTeamStaysIncomplete | internal/infrastructure/repository/trade_repository.go:512-563 | In serial runs a team that lost a paid member after forming is never complete again |
| TradeSerial.SettlementListsTargetOrders | internal/infrastructure/repository/trade_repository.go:300-310 | The settlement task lists the out_trade_nos of exactly target distinct orders, each with a payment time; the numbers are distinct when the orders carry distinct ones |
| TradeSerial.RefundDispatch | internal/domain/trade/service/refund/filter/filters.go:70-95 | Exactly which open orders have a strategy in serial runs: all those of a team in status 0 or 1 and the paid ones of a team in status 3; the chosen transaction then commits |
| TradeModel.GetRefundStrategy | internal/domain/trade/model/valobj/refund_type.go:22-33 | Which pairs of statuses have no strategy, and that the unpaid and formed strategies go to unpaid orders and formed teams only |
| TradeModel.BizTextInjective | internal/infrastructure/repository/trade_repository.go:131 | Two biz_id texts are equal exactly when activity, user and suffix are |
| TradeRepository.MarkPaid | internal/infrastructure/repository/trade_repository.go:261-273 | The update marks every unpaid row of the pair, leaves every other row, and reports how many it marked, as the size of the set of those rows |
| TradeRepository.PluckPaid | internal/infrastructure/repository/trade_repository.go:300-305 | The out_trade_nos of the team's paid rows, in order: all of them and no others |
| TradeRepository.FormTeam | internal/infrastructure/repository/trade_repository.go:288-347 | The last payer's part: refused if and only if the snapshot is one short and the team has left status 0; else the team formed and its task, which lists the paid rows, if and only if it is one short |
| TradeRepository.TextTaken | internal/infrastructure/repository/trade_repository.go:152-157 | The unique index on the rendered text refuses exactly the keys taken |
| TradeRepository.ScanExpired | internal/infrastructure/repository/trade_repository.go:638-646 | min(10, n) distinct rows out of the n that are in status 0, have no payment time and an end_time before now |
| TradeRepository.TradeRepository.QueryMarketPayOrder | internal/infrastructure/repository/trade_repository.go:49-68 | The first row of the pair, if there is one |
| TradeRepository.TradeRepository.QueryOrderCount | internal/infrastructure/repository/trade_repository.go:215-221 | The number of the user's orders in the activity, as the size of the set of those rows |
| TradeRepository.TradeRepository.LockMarketPayOrder | internal/infrastructure/repository/trade_repository.go:70-169 | Which error comes when, by columns; a success inserts one unpaid order that ends with the activity, into a team with one seat more or a new one that ends validTime minutes from now; an error changes nothing. All as in the lock transaction |
| TradeRepository.TradeRepository.SettlementMarketPayOrder | internal/infrastructure/repository/trade_repository.go:253-351 | Succeeds if and only if the pair has one unpaid row, the team exists with complete below target and, for a last payer, is in progress; what each row, the team and the stored task then are, by columns; else nothing changes. All as in the settlement transaction |
| TradeRepository.TradeRepository.DoRefund | internal/infrastructure/repository/trade_repository.go:566-605 | Succeeds if and only if the row is the user's and in the status given, and the team exists; then closes that row, lowers lock_count by one and complete_count by one if it was paid, and stores one task; else nothing changes. All as in the refund transaction |
| TradeRepository.TradeRepository.PaidTeam2Refund | internal/infrastructure/repository/trade_repository.go:512-563 | The same for a formed team, whose status becomes 2 if no payment is left and else 3; with the error for each failure |
| TradeRepository.TradeRepository.QueryTimeoutUnpaid | internal/infrastructure/repository/trade_repository.go:638-683 | Distinct rows in status 0 without a payment time and past their end_time, whose team exists; min(10, n) of the n when every team does |
| RedisStore.LuaIsOccupyScript | internal/infrastructure/repository/trade_repository.go:429-444 | On the real keys of any plain team id the script does what the protocol's occupy step does, and nothing to any other key read |
| RedisStore.RecoveryIdOccupies | internal/infrastructure/repository/trade_repository.go:429-444 | Under the id of another team followed by "_recovery" it counts up that team's recovery counter, with its exact outcome |
| RedisStore.RecoveryIdRaisesQuota | internal/domain/trade/service/lock/factory/lock_context.go:28-34 | Such a join, if granted, lets exactly one more join of the other team through its gate, for every quota |
| RedisStore.SlotIdOccupies | internal/infrastructure/repository/trade_repository.go:437-442 | Under the id of another team followed by a number it leaves that slot of the other team taken, granted or not |
| RedisStore.SlotIdClosesGate | internal/infrastructure/repository/trade_repository.go:437-442 | If that is the next slot of the other team, its gate refuses every join, with any quota |
| RedisStore.RedisStore.OccupyLua | internal/infrastructure/repository/trade_repository.go:429-444 | The script command by command: the seat taken with its slot, or the counter back where it was |
| RedisStore.RedisStore.OccupyTeamStock | internal/infrastructure/repository/trade_repository.go:446-462 | For every team id: the protocol's step if it is plain, else its effect on the counter or slot it shares; the keyspace goes on representing the counters, slots and locks |
| RedisStore.RedisStore.RecoveryTeamStock | internal/infrastructure/repository/trade_repository.go:464-475 | For every team id, only the team's recovery counter rises, by one |
| RedisStore.RedisStore.Refund2AddRecovery | internal/infrastructure/repository/trade_repository.go:478-502 | The lock, the counter and the reported error for every combination of refused commands |
| TradeServices.TradeLockOrderService.LockMarketPayOrder | internal/domain/trade/service/lock/trade_lock_order_service.go:45-70 | For every team id success is a committed lock on the count read and writes the order and team stated by columns, anything else leaves the tables; with a plain id it succeeds if and only if the rule chain and the transaction find what they ask for, and a join on its own does the steps its process does in the protocol, with compensation |
| TradeServices.TradeLockOrderService.Filter | internal/domain/trade/service/lock/filter/filters.go:26-87 | The rule chain passes a join if and only if the activity exists, the user is within a positive take limit and, for an existing team, stock is below target + recovery and the next slot free; it then takes that seat and slot and hands on the true order count. These are the count and occupy steps of the protocol |
| TradeServices.TradeLockOrderService.Finish | internal/domain/trade/service/lock/trade_lock_order_service.go:64-69 | Succeeds if and only if the store answers, there is a seat or a new id, and no order has the biz_id; a failure for an existing team raises the recovery counter by one, or the lost ones, and nothing else. These are the protocol's steps, for every team id |
| TradeServices.MarketTradeApp.Check | internal/application/market_trade_app.go:52-68 | Which request is answered before the lock service, and how, if and only if; these are the first two reads of its process |
| TradeServices.MarketTradeApp.LockMarketPayOrder | internal/application/market_trade_app.go:52-96 | The answer is the order with number row if and only if the store answers and that is the first order of the pair and unpaid; full if and only if the team exists with lock_count at its target; locked if and only if one order was inserted, which is then given by columns. For a plain team id also exactly when it is locked, and the whole request does the steps of its process |
| TradeServices.TradeSettlementOrderService.Filter | internal/domain/trade/service/settlement/filter/filters.go:43-73 | The rule chain refuses if and only if a read fails, the pair has no order or a closed first one, or its team is missing or has ended; these are the two reads of the process |
| TradeServices.TradeSettlementOrderService.SettlementMarketPayOrder | internal/domain/trade/service/settlement/trade_settlement_order_service.go:35-94 | A payment counts if and only if the reads and the store answer, the first order of the pair is not closed, the payment is before the end of its team, the pair has one unpaid order, the team has a payment missing and, if it is the last, is in progress; the rows and the team afterwards, by columns. A settlement on its own does the steps its process does |
| TradeServices.TradeRefundOrderService.Choose | internal/domain/trade/service/refund/filter/filters.go:28-72 | Which answer the reads of a refund come to, or which strategy for which order, if and only if; these are the two reads of the process |
| TradeServices.TradeRefundOrderService.RefundOrder | internal/domain/trade/service/refund/filter/filters.go:28-95 | Which of the five answers a refund gets, if and only if, by the status of the first order of the pair and of its team; what a success writes, by columns; and no other answer changes anything. A refund on its own does the steps its process does |
| TimeoutRefund.RefundTriesRow | internal/domain/trade/service/refund/filter/filters.go:28-95 | The job's request for an unpaid order closes exactly that order and frees its seat if the team is in progress, and changes nothing otherwise |
| TimeoutRefund.PassInColumns | internal/trigger/job/jobs.go:128-164 | The effect of a pass by columns follows from its effect on the counts: which rows may change, how many did, and what each team gets back |
| TimeoutRefund.TimeoutRefundJob.RefundExpired | internal/trigger/job/jobs.go:151-163 | One request of the job: closes its order and frees the seat if the team is in progress, and is an error that changes nothing exactly when the team has left status 0 |
| TimeoutRefund.TimeoutRefundJob.Exec | internal/trigger/job/jobs.go:128-164 | With nothing else running, whatever the statuses of the teams: min(10, n) of the n orders that are unpaid, never paid and past their end are tried, all but at most the blocked ones are closed, as many as reported; only orders that were due and in a team in progress change; each lock_count falls by the number of its orders closed |
| TimeoutRefund.TimeoutRefundJob.Passes | internal/trigger/job/jobs.go:99-112 | With b < 10 orders blocked, k passes leave at most m - k(10 - b) of the m that can be closed; with none blocked exactly max(0, n - 10k), so ceil(n / 10) leave none. An order that is paid, closed or not past its end is the same afterwards |
| TimeoutRefund.PassCanStarve | internal/infrastructure/repository/trade_repository.go:638-646 | The query may return a batch with nothing to close if and only if ten expired orders are blocked or there is nothing to close |
| TimeoutStarvation.StarvedJobReachable | internal/infrastructure/repository/trade_repository.go:638-646 | A state reached from the empty system with an order that could be closed and a batch the query may return that has none |
| TimeoutStarvation.OneMoreBlocked | internal/domain/trade/model/valobj/refund_type.go:22-33 | From every state of this construction, one more team opened, paid, refunded and joined again gives one more expired order that no refund can close |
| TradeLimits.StalePayersKeepStatus | internal/infrastructure/repository/trade_repository.go:289 | From every reachable state with two payments missing and two unpaid orders a run leads to all seats paid with the status unchanged: a team in progress stays unformed, a broken one is full again |
| TradeLimits.RefundUnderLastPayerFormsEarly | internal/infrastructure/repository/trade_repository.go:289 | From every reachable state with one payment missing and a paid member a run leads to a team formed one payment short, with a settlement task one order short |
| TradeLimits.LateRefundLeavesFormed | internal/infrastructure/repository/trade_repository.go:566-595 | From every reachable state with one payment missing and a paid member a run with a true count leads to a formed team one payment short, whose settlement list names a closed order |
| TradeLimits.TwoUnpaidMembersReachable | internal/application/market_trade_app.go:40-96 | Such a state is reached by two joins |
| TradeLimits.CompleteTeamUnformed | internal/infrastructure/repository/trade_repository.go:289 | complete = target does not imply formed: a reachable state with every request finished, no task stored and the team in progress |
| TradeLimits.FormedTeamIncomplete | internal/infrastructure/repository/trade_repository.go:289-310 | Formed does not imply complete: a reachable state with a team of two formed with one payment and one order listed |
| TradeLimits.FormedTeamLosesPayment | internal/infrastructure/repository/trade_repository.go:566-595 | Such a state reached from the empty system: a team of two formed with one payment, both orders listed, one of them closed |
| TradeLimits.FailedTeamFullAgain | internal/infrastructure/repository/trade_repository.go:289 | A reachable state with a team in status 2 and all its seats paid |
| TradeLimits.CompleteFailTeamFullAgain | internal/infrastructure/repository/trade_repository.go:289 | And one in status 3: a team of three that lost two members and was filled by two overlapping payments |
| TradeLimits.DeathLosesSeat | internal/infrastructure/mq/rabbitmq.go:110-132 | From every reachable state with a consumer between SETNX and INCR or DEL, its death leads to all messages handled and the seat not back |
| TradeLimits.LostSeatReachable | internal/infrastructure/repository/trade_repository.go:489-498 | Such a run from the empty system |
| TradeLimits.SettlementCreditsOwnTeamExactly | internal/infrastructure/repository/trade_repository.go:261-286 | After a committed settlement complete_count of the team the filter read is the number of its paid orders if and only if the unpaid order found is its own |
| TradeLimits.ReusedPairCreditsWrongTeam | scripts/sql/group_buy_market.sql:151 | A run that uses a pair again: a team of two is formed with one payment in it, and the other payment is in a team that does not count it |
| TradeLimits.ForeignActivityBreaksSeats | internal/infrastructure/repository/trade_repository.go:116-117 | After a join the accounting of the team's key holds if and only if the join named the team's own activity |
| RefundConsumer.Consume | internal/infrastructure/mq/rabbitmq.go:105-134 | Deliveries, for every team id, are handled in turn; exactly the failed ones go back to the queue. One whose lock Redis refuses always does, and one that does not go back leaves its refund lock set |
| RefundConsumer.HandlesAsInProtocol | internal/domain/trade/service/refund/business/strategy.go:46-51 | Handling a message is its protocol steps from delivery to acknowledgement; it is done if and only if nothing failed and the acknowledgement arrives |
| RefundConsumer.RedeliveryChangesNothing | internal/infrastructure/mq/rabbitmq.go:105-134 | Any number of redeliveries, in any order, of messages handled without failure changes nothing and requeues nothing |
| RefundConsumer.RedeliveredUntilAcknowledged | internal/infrastructure/mq/rabbitmq.go:105-134 | A delivered message may come again if and only if it is not acknowledged |
| NotifyTask.TerminalHasNoMoves | internal/domain/trade/model/valobj/notify_task_status.go:20-43 | A status is terminal exactly when no move leads out of it; none leads to itself or back to Init |
| NotifyTask.TradeTaskService.ExecOne | internal/domain/trade/service/task/trade_task_service.go:48-88 | What one reply writes, if and only if: success to a pending task, failure after more than four counted ones, retry to a new task; and the row afterwards |
| NotifyTask.TradeTaskService.UpdateNotifyTaskStatus | internal/infrastructure/repository/trade_repository.go:388-419 | An update the database takes writes status and count whatever the row holds |
| NotifyTask.TradeTaskService.ExecList | internal/domain/trade/service/task/trade_task_service.go:46-96 | For every choice of replies and refused updates, each row ends as these and the snapshots call for, and the three counters are the numbers of writes of each status |
| Outbox.RunKeepsInv | internal/domain/trade/service/task/trade_task_service.go:46-96 | The bound on what can still be written to a task holds in every interleaving of executors and passes |
| Outbox.NeverGivenUp | internal/domain/trade/service/task/trade_task_service.go:65-79 | notify_count never exceeds 4 and status 3 is never written |
| Outbox.UndeliveredStaysPending | internal/domain/trade/service/task/trade_task_service.go:46-96 | A task without a successful delivery stays in status 0 or 2 with a count of at most 2 |
| Outbox.UndeliveredIsSelected | internal/infrastructure/repository/trade_repository.go:357-372 | The next pass picks such a task exactly when fewer than fifty older tasks are pending |
| Outbox.StarvedTaskIsNeverHeld | internal/infrastructure/repository/trade_repository.go:357-372 | While fifty older tasks are undelivered, no pass of any continuation comes to hold the task |
| Outbox.SuccessLostExactly | internal/infrastructure/repository/trade_repository.go:388-419 | From every reachable state a step changes a success if and only if it is a write the database takes of a failed delivery, by the task's executor or by a pass that had read the task as new |
| Outbox.SuccessSurvivesExactly | internal/infrastructure/repository/trade_repository.go:388-419 | A success survives every continuation if and only if nobody is left who may write a failure to it |
| Outbox.SuccessIsOverwritten | internal/infrastructure/repository/trade_repository.go:388-419 | A run that reaches the count of 4 and in which a late failure overwrites a success |
| OverlappingPasses.WrittenAtMost | internal/domain/trade/service/task/trade_task_service.go:46-96 | With any number m of passes that overlap, a task is written at most 1 + 2m + m(m + 1)/2 times; with one, 4 |
| OverlappingPasses.ErrorNeedsOverlap | internal/domain/trade/service/task/trade_task_service.go:65-72 | Some run writes status 3 if and only if two passes may overlap |
| OverlappingPasses.RunKeepsInv | internal/trigger/job/jobs.go:51-75 | The budget of writes left to a task holds in every interleaving of its executor with overlapping passes |
| LeaseLock.TimelyRunIsExclusive | internal/infrastructure/redis/redis_service.go:126-134 | While every holder leaves in time, each lock is the lease of one executor |
| LeaseLock.LeaseLockIsSafe | internal/infrastructure/acl/trade_notify_acl.go:45-57 | While every holder leaves in time, no two executors are inside a key and DEL removes the holder's own lock |
| LeaseLock.OverstayingBreaksExclusion | internal/infrastructure/redis/redis_service.go:126-134 | From every exclusive state an attempt breaks exclusion if and only if another executor is still inside the key past its lease |
| LeaseLock.OverstayerUnlocksTheNext | internal/infrastructure/redis/redis_service.go:131-134 | Then its unconditional DEL removes the newcomer's lock, and a third executor gets in beside it |
| LeaseLock.CrashedLockExpires | internal/infrastructure/redis/redis_service.go:126-134 | After a crash of the holder another executor gets in if and only if the lease has run out |
| LeaseLock.RedisService.TryLockWait | internal/infrastructure/redis/redis_service.go:136-161 | A free lock is taken at once unless Redis refuses; a time-out means still held after the deadline, at most one poll of 50 ms later; a lock obtained later was held at the poll before; an error or a cancellation ends the wait without the lock |
| LeaseLock.RedisService.GroupBuyNotify | internal/infrastructure/acl/trade_notify_acl.go:41-93 | A lock not obtained, by time-out after 3 seconds, error or cancellation, changes nothing and gives Null; one obtained is released on every path, the holder's own if the delivery took less than its lease of 30 seconds and else whichever is there |
| Dcc.ApplySetsOneKey | internal/infrastructure/dcc/dcc_service.go:153-168 | A change reaches its own key and no other; an unknown key reaches none |
| Dcc.DccService.Apply | internal/infrastructure/dcc/dcc_service.go:153-168 | Every setting afterwards is the value given if the key is its own, and what it was otherwise, field by field |
| Dcc.DccService.Update | internal/infrastructure/dcc/dcc_service.go:146-185 | The change is applied locally whatever becomes of its publication; the channel gets it exactly when broadcasting is enabled and the publication succeeds |
| Dcc.UpdateInNet | internal/infrastructure/dcc/dcc_service.go:146-185 | In the network that is one update step and one publication, successful or failed, and nothing else |
| Dcc.SettledHoldsLast | internal/infrastructure/dcc/dcc_service.go:59-96 | An instance that handled everything holds the last published value of each key whose publication did not fail there since |
| Dcc.Converges | internal/infrastructure/dcc/dcc_service.go:59-96 | For any number of instances and any interleaving, once all messages are handled and none was dropped, all snapshots are equal and hold the last published values |
| Dcc.EchoIsNeeded | internal/infrastructure/dcc/dcc_service.go:87-89 | If instances skipped their own messages: for every key and any two values a run ends with everything published, handled and nothing dropped, and two instances apart |
| KeyScheme.Itoa | internal/domain/trade/service/lock/factory/lock_context.go:36-58 | Every int64 but the minimum comes out as its decimal numeral without leaving the 20-byte buffer; the minimum comes out as a bare sign |
| KeyScheme.WriteDigits | internal/domain/trade/service/lock/factory/lock_context.go:46-52 | The digit loop leaves the numeral at the end of the buffer and nothing else there |
| KeyScheme.ParseDecimal | internal/domain/trade/service/lock/factory/lock_context.go:36-58 | A numeral parses back to its number |
| KeyScheme.DigitsLength | internal/domain/trade/service/lock/factory/lock_context.go:46-52 | A number below 10^k has at most k digits |
| KeyScheme.BizIdInjective | internal/infrastructure/repository/trade_repository.go:131 | A biz_id determines activity, user and suffix, even for user ids with underscores |
| KeyScheme.TeamStockKeyInjective | internal/domain/trade/service/lock/factory/lock_context.go:28-30 | A stock key determines activity and team |
| KeyScheme.RecoveryKeyInjective | internal/domain/trade/service/lock/factory/lock_context.go:32-34 | A recovery key determines activity and team |
| KeyScheme.SlotKeyInjective | internal/infrastructure/repository/trade_repository.go:437 | A slot key determines activity, team and slot |
| KeyScheme.KeyCollisions | internal/domain/trade/service/lock/factory/lock_context.go:28-34 | For arbitrary team ids, exactly when keys of two kinds coincide |
| KeyScheme.PlainTeamsDoNotCollide | internal/domain/trade/service/lock/factory/lock_context.go:28-34 | A stock key is apart from all recovery and slot keys if and only if its team id is plain |
| KeyScheme.DigitTeamsArePlain | internal/infrastructure/repository/trade_repository.go:713-720 | Team ids of digits are plain |
| KeyScheme.DigitTeamsDoNotCollide | internal/domain/trade/service/lock/factory/lock_context.go:28-34 | For team ids of digits keys of different kinds never coincide |
| KeyScheme.RefundLockKeyInjective | internal/infrastructure/repository/trade_repository.go:482 | A refund lock key determines its order |
| Chain.Handler.Apply | internal/design/chain/logic_handler.go:22-28 | A handler linked into a finite chain terminates with the outcome of the rest of the chain |
| Chain.StopsAtFirstAnswer | internal/design/chain/logic_handler.go:22-28 | Handlers run in order, each on the context its predecessors left, up to the first that does not call Next, whose answer and context are the result |
| Chain.RunsAllWithoutAnswer | internal/design/chain/logic_handler.go:22-28 | Without an answer all handlers run and the zero result is returned |
| Chain.Wire | internal/design/chain/logic_handler.go:40-42 | Each handler ends linked to what followed its last occurrence; the last one keeps its link |
| Chain.LinkedList.constructor | internal/design/chain/logic_handler.go:36-47 | The handlers become an acyclic list in their order if and only if they are pairwise distinct and the last was not linked before |
| Chain.ChainNeverRepeats | internal/design/chain/logic_handler.go:22-28 | A finite chain never repeats a handler |
| Chain.LinkedList.Apply | internal/design/chain/logic_handler.go:49-55 | The chain runs from its head; an empty list gives the zero result |
| Chain.SelfLinkNeverEnds | internal/design/chain/logic_handler.go:40-42 | A handler given twice in a row starts no finite chain |

## Left out

- HTTP controllers, request checks and normalisation, DTOs, logging, metrics, tracing, configuration loading: no state that properties depend on.
- The trial of an activity (discounts, visibility, crowd tags, cut range, blacklist) and the activity's status and dates: a step may refuse a request for any of these, which is all the protocol needs of them.
- MySQL, Redis and RabbitMQ themselves: a transaction, a script and a command are atomic steps; column widths, collation and isolation levels are not modelled.
- JSON encoding of task parameters and messages: they stay datatypes.
- Random team and order ids: a team id is an arbitrary value that the unique key may refuse, an order id the row's number.
- Reporting queries, the rate limiter and the second delivery entry point by team id: they read, or do what the modelled loop does.
- The strategy registry and the codes of refund types: the three strategies are reached by their type directly.
- TradeTheorems.NoWrongfulRefusal: speaks of teams with a row; a stock key for a team id without one can be used up by joins that the table then refuses, which is in TradeTheorems.SeatAccounting.
- LeaseLock.RedisService.TryLockWait: the clock moves only while it polls, and from the time Redis refuses or the caller cancels it goes on doing so.
- LeaseLock.LeaseLockIsSafe: the hypothesis that holders leave in time is the caller's; nothing in the code bounds the time a delivery takes.
- NotifyTask.TradeTaskService.ExecList: a task's row is given by its number; that uuid and team id name one row is not enforced by the table.
- RedisStore.RedisStore.OccupyTeamStock: the expiry of slot keys is a step of the protocol (`SlotExpires`), not of this class.
- TimeoutRefund.TimeoutRefundJob.Exec: the lock around a pass is the one of LeaseLock; other requests during a pass are covered by the protocol, not by the counts stated here.
- Chain.Handler.Apply: errors are answers, and a handler calls Next at most once, as its last action, as all handlers of the repository do.
