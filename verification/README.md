# Mint execution kernel: a Dafny model

This project models the money-and-lifecycle kernel of the live mint execution backend, and proves what it guarantees
over whole histories. The backend reserves worst-case spend for a fleet of wallets before anything is signed, runs the
mint engine, reconciles what the chains report, and settles or frees the reservations. Several processes share one
database; each reads a snapshot, works on it, and later runs one atomic transaction, so a step may act on stale data.

The kernel is one step machine over the shared tables (`Ledger`, `Coordinator`, `Kernel`). Its step relation includes
clock ticks, arming, admission, engine results, reconciliation passes, kills, unsent-run closes and the engine's own
callbacks, in any interleaving and any number. `Transactions` states its transactions on the facts and tables they meet:
when each commits, and exactly what it writes. `Safety`, `WalletCap`, `Results`, `Limits`, `Fleet`, `Admissions`, `Reruns`,
`Settlement` and `Repeats` prove the invariants and the history theorems. `Store` holds the imperative store: loops that update tables in place and roll back,
each tied to the transaction function the step machine uses.

Smaller cores stand beside it: the incremental event view (`EventCache`), the funding planner and the balance gate
(`Funding`), the left-over balance reminder (`Excess`), the wallet watcher (`Watcher`), the leased notification outbox
(`Notifications`), the leased job scheduler (`Orchestrator`), wallet selection and lane planning (`Lanes`), and the
big-integer JSON encoding (`Json`).

Amounts are integers in wei, times are milliseconds, addresses stand for their lower-case form, and the digests that name
executions and reservations are the pairs (run, wallet) they are computed from. A store transaction is a function from
tables to tables or an error; an error leaves the tables unchanged.

## Where the code does not meet its promise

Four promises are false of the code as written. In each case the model keeps the code as it is, gives the failing case,
and states the exact condition.

- Failed and aborted runs are meant to be final. The admission transaction writes `active` without looking at the stored
  state, so a process that read the run while it was armed revives a run another process has closed
  (`Fleet.AbortedRunRevived`). A run climbs back if and only if the guard of such an admission holds, stated on the tables
  before it (`Reruns.RevivedExactly`). A run with one released reservation never does (`Reruns.ReleasedNeverRevived`).
- A run is meant to be executed once. Three checks stand before the engine (the worker's, the coordinator's and the
  admission's), each on its own earlier snapshot. A worker that has passed the coordinator's check starts the engine for a
  run that has submitted work since (`Orchestrator.SubmittedRunLaunched`), and a second admission commits for a run with a
  hash-bearing attempt (`Reruns.SentRunAdmittedAgain`). From the moment work is submitted the engine is started at most once
  for each worker already inside (`Orchestrator.SubmittedNeverRunsAgain`); the second admission commits if and only if its
  guard holds and reserves nothing (`Reruns.SentRunAdmittedExactly`); and it takes a process that read the run before the
  first admission committed (`Reruns.SecondAdmissionOverlaps`).
- A cached event read is meant to equal a read of the whole table. A read that meets a row it cannot decode throws after
  the cursor has moved past it, and later reads silently lack the rows it passed (`EventCache.ReadsStepOver`). Over every
  history a read is right if and only if no row the surviving cursor has passed is undecodable, or another one lies ahead
  of it (`EventCache.CachedReadExactly`).
- A job whose run has submitted work is meant never to be rescheduled. A worker decides on a retry in one read and writes
  it in a later transaction that does not look again (`Orchestrator.RetryOvertaken`). Such a job goes back to the queue if
  and only if a decided retry is written (`Orchestrator.RequeuedExactly`), and that retry was decided before the run had
  submitted anything (`Orchestrator.RequeuedOnlyWhenOvertaken`).

Three further exact conditions: a provider's wait is noted if and only if the refused record is still open when the
refusal arrives (`Notifications.RefusalNotedExactly`), planner and gate agree as long as the amounts fit the forty decimal digits the gate can read
(`Funding.PlanMeetsGate`, `Funding.LimitsAgreeExactly`), and decoding undoes encoding as long as no plain string looks like an
encoded big integer (`Json.RoundTripExactly`).

The comment at packages/backend/src/fleet-policy.ts:4 speaks of caps per UTC day; the code sums over the last 24 hours, and
so does the model.

## Model

| member | source | states |
|---|---|---|
| `Ledger.SumMonotone` | packages/backend/src/canonical-store.ts:1751-1765 | if no row counts for more than before, no exposure sum grows, for every sum the admission code asks for |
| `Ledger.SpentWithinSum` | packages/backend/src/canonical-store.ts:1163-1170 | what was actually spent in a day-long window never exceeds the reserved amounts of the rows settled in it |
| `Ledger.ClassConsistent` | packages/backend/src/canonical-store.ts:1714-1723 | with quantity at least one and a price that is not negative, a new row counts in exactly the mint class it was checked against |
| `Ledger.FleetSumLaw` | packages/backend/src/canonical-store.ts:1751-1760 | what one more row adds to a fleet's daily sum, on its fields: its reserved amount if it is of the chain and class and is reserved or settled since the cutoff, otherwise nothing |
| `Ledger.WalletSumLaw` | packages/backend/src/canonical-store.ts:1709-1710 | the same for a wallet's daily sum |
| `Ledger.RunSumLaw` | packages/backend/src/canonical-store.ts:1762-1765 | the same for a run's total, which leaves out released rows |
| `Ledger.SpendLaw` | packages/backend/src/canonical-store.ts:1163-1170 | what one more row adds to the actual spend of a day: the amount it was settled for inside it |
| `Ledger.RehearsalExactly` | packages/backend/src/canonical-store.ts:714-741 | the rehearsal is completed, or outstanding, exactly when the rows and receipts of Base show it |
| `Coordinator.StoredAuthorizes` | packages/backend/src/canonical-store.ts:1186-1200 | exactly which receipts authorize a settlement once stored, for every chain, state and reported stage; one that authorizes on a staged chain keeps its power |
| `Coordinator.FirstReceipt` | packages/backend/src/coordinator.ts:399-410 | the receipt accounting acts on is a matching one, and none is found only if none matches |
| `Kernel.StepEvolves` | packages/backend/src/canonical-store.ts:1149-1170 | every step that is not a successful admission only appends facts and moves reserved rows once, to settled or released |
| `Kernel.AdmitWalletsAppends` | packages/backend/src/canonical-store.ts:750-799 | an admission only appends reserved rows of its own run, leaves every older row and execution alone, and ends with a row for each wallet |
| `Safety.CapsAppend` | packages/backend/src/canonical-store.ts:1707-1749 | the checks made for one new row keep the fleet cap, the settled-window cap and the run cap for all chains, classes, windows and runs |
| `Safety.WindowEvolves` | packages/backend/src/canonical-store.ts:1751-1756 | settling, releasing and the passing of time keep every past and present 24-hour window under the cap |
| `Safety.PaidCapAppend` | packages/backend/src/canonical-store.ts:1731-1738 | one admission keeps the number of wallets holding a paid campaign within its limit, for every campaign |
| `Safety.RehearsalAppend` | packages/backend/src/canonical-store.ts:713-742 | one admission keeps at most one outstanding Base reservation until the rehearsal is complete |
| `Safety.StepKeeps` | packages/backend/src/canonical-store.ts:684-811 | every step of every process keeps the whole invariant |
| `Safety.Always` | packages/backend/src/canonical-store.ts:684-811 | the invariant holds after every history of steps |
| `WalletCap.WalletDailyCap` | packages/backend/src/canonical-store.ts:1707-1711 | after every history a wallet's open plus recently settled exposure is nothing or within the daily cap of a campaign it reserved for on that chain |
| `WalletCap.WithinAppend` | packages/backend/src/canonical-store.ts:1707-1711 | the new row grants its wallet the new sum, and every other wallet keeps its grant |
| `Limits.ReservationsWithinPolicy` | packages/backend/src/canonical-store.ts:1714-1728 | after every history each reservation belongs to a campaign with a real quantity, an accepted price and a fee allowance within the policy |
| `Limits.AdmissionClock` | packages/database/src/spend-window.ts:12-27 | an admission leaves the watermark at its own time and finds no reservation pending for a day |
| `Limits.WatermarkRises` | packages/database/src/spend-window.ts:18-27 | the admission watermark never goes back over any stretch of any history |
| `Results.FleetCaps` | packages/backend/src/canonical-store.ts:1740-1760 | after every history, reserved plus recently settled exposure of a chain and class, and the actual spend of any 24-hour window, are within the cap of the policy that governs the chain, and within 0.002 ETH for free mints on Robinhood |
| `Results.PaidWalletCap` | packages/backend/src/canonical-store.ts:1731-1738 | after every history, distinct wallets that hold reserved or settled exposure on a paid campaign never outnumber its limit |
| `Results.BaseRehearsal` | packages/backend/src/base-enablement.ts:47-52 | after every history, two outstanding Base reservations come with a settled Base row whose receipt is confirmed and Ethereum-final |
| `Results.RowsPriced` | packages/backend/src/canonical-store.ts:1667-1672 | after every history each reservation holds price times quantity plus the fee budget of its run's campaign, and that price times quantity as its mint value |
| `Results.NoSecondMint` | packages/backend/src/canonical-store.ts:761-766 | no wallet ever has two reservations for one campaign, whatever became of the first |
| `Results.RowsContinue` | packages/backend/src/canonical-store.ts:1149-1170 | a reservation keeps its place, identity and reserved amount forever, and never changes once settled or released |
| `Results.EndStatesStay` | packages/backend/src/canonical-store.ts:1163-1170 | a settled row's amount stays within zero and its reservation to the end of every history |
| `Results.HashedFreedExactly` | packages/backend/src/canonical-store.ts:813-861 | a reservation with a hash-bearing attempt is released by a step if and only if an accepted report gives its wallet only hashless failures or the engine releases it; kills, closes, reorgs and unresolved passes never do |
| `Results.HashedNeverFreed` | packages/backend/src/coordinator.ts:399-417 | over whole histories such exposure is only ever settled, unless the engine reports the wallet unsent |
| `Results.KilledNeverGrows` | packages/backend/src/canonical-store.ts:703-703 | a step taken while killed raises no exposure sum of any chain, wallet or run |
| `Results.KilledHistoryNeverGrows` | packages/backend/src/coordinator.ts:288-300 | no exposure sum grows over any stretch of history spent killed |
| `Results.CompletionIsFinal` | packages/backend/src/coordinator.ts:435-446 | a live Base or Robinhood run becomes completed only by a final pass over confirmed, Ethereum-final receipts for every execution the pass had seen |
| `Results.PassReadEarlier` | packages/backend/src/coordinator.ts:338-345 | what a pass had seen is what was recorded at an earlier step of the history |
| `Results.CompletedByFinalPass` | packages/backend/src/coordinator.ts:327-364 | every completed live run on a staged chain has such a pass and such a snapshot in its history |
| `Transactions.MovesExactly` | packages/backend/src/coordinator.ts:245-255 | exactly which steps complete, fail, abort or activate a run, for every step in every world |
| `Transactions.PassAccounts` | packages/backend/src/coordinator.ts:399-417 | a committed pass settles a reserved row of its run if and only if a confirmed attempt stands beside a counting confirmed receipt or an attempt beside a counting failed one, for the amount of the first such receipt; releases it if and only if only hashless failures are reported; and changes no other row |
| `Transactions.ResultAccounts` | packages/backend/src/coordinator.ts:254-254 | a committed execution result does the same |
| `Transactions.PassCommitsExactly` | packages/backend/src/coordinator.ts:343-350 | exactly which reports a pass accepts: facts of the run under distinct ids, receipts and outcome that fit, amounts within what is held, and no fact without its execution or attempt |
| `Transactions.ResultCommitsExactly` | packages/backend/src/coordinator.ts:242-255 | exactly which execution results are recorded |
| `Transactions.PassWrites` | packages/backend/src/coordinator.ts:346-364 | a committed pass adds the attempts with new ids and one log entry, and touches no other run, no clock and no kill switch |
| `Transactions.ResultWrites` | packages/backend/src/coordinator.ts:245-255 | a recorded result marks its run as executed for good |
| `Transactions.NewAttemptsExactly` | packages/backend/src/coordinator.ts:349-349 | the attempts that are added are those whose id is not stored, each as often as reported |
| `Transactions.AttemptsMoveExactly` | packages/backend/src/canonical-store.ts:1173-1184 | an execution ends in the state of the last attempt that moves it; replacements move nothing and nothing moves an aborted one |
| `Transactions.ReceiptsMoveExactly` | packages/backend/src/canonical-store.ts:1186-1200 | the same for receipts |
| `Transactions.KillExactly` | packages/backend/src/canonical-store.ts:813-834 | exactly what a kill changes: open executions without a hash-bearing attempt are aborted and their money freed, open runs aborted, nothing else |
| `Transactions.CloseExactly` | packages/backend/src/canonical-store.ts:841-861 | exactly when a run can be closed as unsent, and what that changes |
| `Transactions.StoredExactly` | packages/backend/src/canonical-store.ts:1186-1200 | the state and stage every receipt is stored with |
| `Transactions.StoredTwice` | packages/backend/src/canonical-store.ts:338-350 | storing a receipt read back changes nothing |
| `Transactions.StartsExactly` | packages/backend/src/coordinator.ts:163-168 | a process starts on a run exactly when nothing is killed, the run is armed, and nothing of it was attempted or recorded |
| `Settlement.SettlementsBacked` | packages/backend/src/coordinator.ts:399-417 | over every coordinator history, each settled Base or Robinhood reservation has a stored receipt of its execution that authorizes settlement, and was settled for exactly the amount it reports |
| `Settlement.SettlingStores` | packages/backend/src/coordinator.ts:17-22 | the receipt that makes accounting settle a row is stored by the same transaction |
| `Settlement.FactsTwice` | packages/backend/src/coordinator.ts:349-350 | facts already stored are not stored again and move no execution |
| `Settlement.AccountedTwice` | packages/backend/src/coordinator.ts:399-417 | accounting the same facts again moves no reservation and meets no impossible amount |
| `Settlement.ReconcileTwice` | packages/backend/src/coordinator.ts:346-364 | the same update applied again with nothing but time in between adds one log entry and nothing else; it is refused exactly when it does not cover the newer snapshot |
| `Repeats.ReportedTwice` | packages/backend/src/coordinator.ts:346-364 | the same update reported again after any steps of any processes changes no attempt, receipt, execution or reservation the first pass found, and no run state unless the run was revived in between |
| `Fleet.FleetAlways` | packages/backend/src/canonical-store.ts:745-799 | after every history a run has rows for its whole armed fleet or none, and all it ever reserved fits its run cap |
| `Fleet.AllOrNothing` | packages/backend/src/canonical-store.ts:684-811 | once a run has one reservation, each wallet of its armed fleet has exactly one |
| `Admissions.FleetFitsExactly` | packages/backend/src/canonical-store.ts:750-799 | for a fleet without reservations the wallet-by-wallet loop with running totals passes if and only if the whole fleet fits the run cap, the fleet cap and every wallet's daily cap at once |
| `Admissions.ReadmitsExactly` | packages/backend/src/canonical-store.ts:756-769 | for a fleet that has its reservations the loop passes if and only if none was released, and changes nothing |
| `Admissions.SoundAlways` | packages/backend/src/canonical-store.ts:752-799 | after every history each reservation is for a wallet of its fleet, each execution has a reservation and each attempt an execution |
| `Admissions.AsksExactly` | packages/backend/src/canonical-store.ts:687-749 | the code finds no batch-wide error exactly when its conditions on the caller's copy, the policy, the clock, the rehearsal and the tables hold, written out |
| `Admissions.AdmitsExactly` | packages/backend/src/canonical-store.ts:684-811 | in every reachable world an admission commits if and only if its guard on the tables before it holds |
| `Reruns.RevivedExactly` | packages/backend/src/coordinator.ts:245-255 | over every history a run moves down the transition relation, and an ended one climbs back if and only if that guard holds for a process that read it while armed |
| `Reruns.BoundedRuns` | packages/backend/src/coordinator.ts:419-424 | without revivals a run changes state at most three times, along legal moves, in a history of any length |
| `Reruns.ReleasedNeverRevived` | packages/backend/src/canonical-store.ts:757-757 | once one reservation of a run is released no admission of the run ever commits again |
| `Reruns.ReleasedRunStaysEnded` | packages/backend/src/canonical-store.ts:841-861 | a failed or aborted run with a released reservation stays so in every continuation |
| `Reruns.SentRunAdmittedExactly` | packages/backend/src/canonical-store.ts:689-689 | a run that has sent something is admitted again if and only if a copy read while armed passes the batch-wide checks and no reservation of the fleet was released; nothing is reserved again |
| `Reruns.SentRunWasReadEarlier` | packages/backend/src/coordinator.ts:163-168 | the copy such an admission uses was read at an earlier step, when the run had no attempt |
| `Reruns.SecondAdmissionOverlaps` | packages/backend/src/coordinator.ts:167-168 | a second admission of a run is made by another process, which read it before the first one committed; without overlapping readers the engine starts at most once for a run |
| `Reruns.SentRunAdmittedAgain` | packages/backend/src/coordinator.ts:163-200 | a six-step history in which a run with a hash-bearing attempt is admitted a second time |
| `Fleet.RowFor` | packages/cli/src/engine-adapter.ts:342-343 | the gate finds a reservation of the run and wallet, or there is none |
| `Fleet.GateFinds` | packages/cli/src/engine-adapter.ts:313-348 | a request that passes the gate carries price times quantity and the canonical identity, and its value, gas and L1 data fit a live reservation of its own wallet |
| `Fleet.GateExactly` | packages/cli/src/engine-adapter.ts:325-348 | the gate passes if and only if nothing is killed, the enablement is current, the identity is canonical and some reservation covers the request |
| `Fleet.GateCovers` | packages/cli/src/engine-adapter.ts:325-348 | a request that passed the gate at any moment is covered by the same reservation ever after |
| `Fleet.SignedWithinRunCap` | packages/cli/src/engine-adapter.ts:313-348 | one transaction per wallet, each gated at its own moment: every value is price times quantity, and value, gas and L1 data of all together fit the run cap |
| `Fleet.AbortedRunRevived` | packages/backend/src/canonical-store.ts:1647-1650 | a four-step history in which an aborted run becomes active again with money reserved |
| `Store.CanonicalStore.AdmitOne` | packages/backend/src/canonical-store.ts:750-799 | admitting one wallet in place does what the admission function says, or reports its error |
| `Store.CanonicalStore.AdmitExecution` | packages/backend/src/canonical-store.ts:684-811 | the row-by-row transaction ends in exactly the admitted tables, or throws the same error and restores every table |
| `Store.CanonicalStore.ApplyAccounting` | packages/backend/src/coordinator.ts:399-417 | the in-place pass accounts every reservation of the run, or refuses an impossible amount and changes none |
| `Store.CanonicalStore.AbortAll` | packages/backend/src/canonical-store.ts:813-834 | working through the open executions one by one frees exactly those that cannot have been sent and aborts the open runs |
| `Store.CanonicalStore.PushAttempts` | packages/backend/src/coordinator.ts:349-349 | exactly the attempts whose id is not stored yet are appended, in order |
| `EventCache.SortedUnique` | packages/backend/src/canonical-store.ts:985-987 | with identifying ids, the same events have only one order by time and id |
| `EventCache.MergeKeeps` | packages/backend/src/canonical-store.ts:992-1000 | merging two sorted views keeps every event of both, in order |
| `EventCache.MergeIsSort` | packages/backend/src/canonical-store.ts:985-1002 | merging the sorted new batch into the sorted view equals sorting everything |
| `EventCache.AppendIsMerge` | packages/backend/src/canonical-store.ts:988-990 | a batch that starts after the view ends may simply be appended |
| `EventCache.RefreshExactly` | packages/backend/src/canonical-store.ts:965-1007 | one cached read agrees with a read from scratch if and only if all rows before its checked cursor can be decoded or some row from there on cannot, and leaves a cursor that follows the table |
| `EventCache.CachedReadExactly` | packages/backend/src/canonical-store.ts:965-1007 | the same over every sequence of appends, rollbacks that reuse row numbers and reads, those that threw included |
| `EventCache.CachedReadIsExact` | packages/backend/src/canonical-store.ts:965-1007 | whenever all rows of the current table can be decoded, the cached read equals the read from scratch |
| `EventCache.ScratchExactly` | packages/backend/src/canonical-store.ts:985-987 | a read from scratch succeeds exactly when every row can be decoded, and then holds exactly what the rows show, in order of time and then id |
| `EventCache.ShownLaw` | packages/backend/src/canonical-store.ts:979-983 | which rows are shown, and the id, time, run, type and data each is shown with |
| `EventCache.SilentAfterThrow` | packages/backend/src/canonical-store.ts:976-984 | after a read that threw, the next one is silently wrong if no undecodable row is left ahead, and right otherwise |
| `EventCache.ReadsStepOver` | packages/backend/src/canonical-store.ts:976-984 | the failing tables: one undecodable row misleads the second read, two of them the third |
| `EventCache.EventView.MergeBatch` | packages/backend/src/canonical-store.ts:992-1000 | the index-by-index loop computes the merge |
| `EventCache.EventView.Scan` | packages/backend/src/canonical-store.ts:975-984 | the scan collects the shown rows and moves the cursor past the last one read, a row it cannot decode included |
| `EventCache.EventView.ReadEvents` | packages/backend/src/canonical-store.ts:965-1007 | the in-place read returns and leaves exactly what the refresh function says, and the view stays sorted |
| `Funding.TopUpExact` | packages/backend/src/fleet-funding.ts:91-99 | a planned top-up is zero exactly when the wallet holds enough, covers the shortfall, and never passes the wallet's limit |
| `Funding.AmountsExactly` | packages/backend/src/fleet-funding.ts:88-99 | envelope, limit and top-up of a wallet: the margin cut at the bound, never below the idle ceiling, and the shortfall rounded up to the display unit or cut at the limit |
| `Funding.CleanExactly` | packages/backend/src/fleet-funding.ts:72-107 | a plan has no blockers exactly when ceilings, margin and every wallet are sound and the limits together fit the fleet bound |
| `Funding.GateExactly` | packages/backend/src/compensating-controls.ts:111-149 | on any observations, the gate passes exactly when each is valid, new, readable, within its limit and above its minimum, the wallets are the expected ones and the fleet is within its limit |
| `Funding.LimitForExactly` | packages/backend/src/compensating-controls.ts:104-109 | what the gate allows a wallet: the idle ceiling, or its readable envelope up to the bound if that is more |
| `Funding.LimitsAgreeExactly` | packages/backend/src/compensating-controls.ts:104-109 | the planner's limit is the gate's if and only if the envelope fits forty digits or stays under the idle ceiling |
| `Funding.PlanRunFunding` | packages/backend/src/fleet-funding.ts:69-109 | the accumulating loop computes the plan, blockers included |
| `Funding.CheckBalances` | packages/backend/src/compensating-controls.ts:111-149 | the checking loop reports exactly the gate's first error, or none |
| `Funding.ScanVerdict` | packages/backend/src/compensating-controls.ts:122-137 | on planned wallets the scan passes exactly when each has its money in readable amounts, and the gate's limits never exceed the planner's |
| `Funding.LimitsOrderFree` | packages/backend/src/compensating-controls.ts:140-147 | the fleet limit does not depend on the order wallets are observed in |
| `Funding.PlanMeetsGate` | packages/backend/src/fleet-funding.ts:69-109 | for a plan without blockers over exactly its wallets in any order, the gate passes if and only if the plan is ready, or once topped up, provided the amounts fit; under forty-digit ceilings they always do |
| `Excess.StepExcessTracker` | packages/backend/src/fleet-funding.ts:126-159 | the loop computes the next tracker and the reminders |
| `Excess.ReminderIsEarned` | packages/backend/src/fleet-funding.ts:126-159 | every reminder follows a full period of steps above the ceiling with one nonce and no run |
| `Excess.RemindersSpaced` | packages/backend/src/fleet-funding.ts:126-159 | two reminders for one wallet are at least one period apart in every history |
| `Excess.IdleIsReminded` | packages/backend/src/fleet-funding.ts:126-159 | a wallet above the ceiling for a full period with one nonce and no run, not reminded within the last period, is reminded |
| `Watcher.LedgerFor` | packages/backend/src/fleet-watcher.ts:173-197 | the loops compute the ledger: one above the highest own nonce, and the sum of the reservations that explain a fall |
| `Watcher.AllowedFallLaw` | packages/backend/src/fleet-watcher.ts:189-195 | a reservation adds exactly its amount if it is of this wallet and chain and pending or changed since the baseline, and otherwise nothing |
| `Watcher.ActsExactly` | packages/backend/src/fleet-watcher.ts:322-433 | exactly what one check does, on the records it reads: signing is stopped if and only if both reads are beyond the records and no proven return explains them, and what becomes of the baseline in every case |
| `Watcher.AnyFallStops` | packages/backend/src/fleet-watcher.ts:189-195 | for a wallet without such a reservation any fall stops signing, whatever other wallets hold |
| `Watcher.ReturnExactly` | packages/backend/src/fleet-watcher.ts:207-233 | a treasury return is committed exactly when the wallet is quiet and its records the same in three snapshots and the proof covers the unexplained nonces and the fall |
| `Watcher.AcceptsExactly` | packages/backend/src/fleet-watcher.ts:249-280 | an owner's accept is adopted exactly when it is newer than the baseline, not in the future and not ahead of the chain |
| `Watcher.KnownNext` | packages/backend/src/fleet-watcher.ts:182-188 | the next own nonce is one above some recorded attempt of this wallet and chain and above all of them; none exactly when there is no such attempt |
| `Watcher.BaselineCovered` | packages/backend/src/fleet-watcher.ts:52-64 | since first sighting or last accept, every nonce below the baseline is inside a committed return, or an attempt of this wallet and chain with that nonce or a higher one stood in the records a check relied on |
| `Watcher.OwnWasRead` | packages/backend/src/fleet-watcher.ts:173-197 | every attempt the coverage rests on was in records that a check of the history actually read |
| `Watcher.ReturnsWereVerified` | packages/backend/src/fleet-watcher.ts:207-233 | every committed return passed the complete verification against the baseline of its moment |
| `Watcher.FleetWatcher.Check` | packages/backend/src/fleet-watcher.ts:322-433 | checking one wallet in place follows the reaction function and touches no other wallet's baseline |
| `Notifications.IndexOf` | packages/backend/src/notifications.ts:45-59 | a record of the event is found, or there is none |
| `Notifications.OneRowPerEvent` | packages/backend/src/notifications.ts:45-59 | no source event ever has two outbox rows |
| `Notifications.DeliveredStays` | packages/backend/src/notifications.ts:113-187 | no step loses a row, lowers its attempts or takes back a delivery |
| `Notifications.DeliveredForever` | packages/backend/src/notifications.ts:113-187 | delivered is final over every history, however late processes are |
| `Notifications.DelayRises` | packages/backend/src/notifications.ts:179-179 | retry delays grow with the attempts up to the maximum and are never shorter than the provider asked for |
| `Notifications.DelayDoubles` | packages/backend/src/notifications.ts:179-179 | the delay starts at the base, doubles with each of the first eight attempts, stops at the maximum, and is never shorter than the provider's wait |
| `Notifications.BackoffExactly` | packages/backend/src/notifications.ts:61-65 | the channel waits exactly as long as the latest wait owed to an undelivered rate-limited record |
| `Notifications.ClaimsExactly` | packages/backend/src/notifications.ts:136-153 | an attempt starts if and only if the record is undelivered, the channel does not wait, and neither its retry time nor its lease lies ahead; what the claim writes in either case |
| `Notifications.FailureObeyed` | packages/backend/src/notifications.ts:145-145 | after any failed attempt of an open record no process starts another one before its delay is over, in any continuation |
| `Notifications.OneAttemptInFlight` | packages/backend/src/notifications.ts:113-187 | if every send resolves before its lease ends, at most one attempt per notification is under way at any moment |
| `Notifications.RefusalBlocksAll` | packages/backend/src/notifications.ts:61-74 | while a rate limit is in force nobody can claim any notification |
| `Notifications.RefusalNotedExactly` | packages/backend/src/notifications.ts:172-180 | the wait of a refusal is noted if and only if its record is neither failed nor delivered when it arrives |
| `Notifications.NotedRefusalObeyed` | packages/backend/src/notifications.ts:61-74 | a noted wait keeps every notification from being claimed before it is over while the refused one stays undelivered, without any lease assumption |
| `Notifications.RateLimitObeyed` | packages/backend/src/notifications.ts:61-74 | if sends resolve before their leases end, every rate-limit refusal is obeyed that way |
| `Notifications.Outbox.ChannelBackoff` | packages/backend/src/notifications.ts:61-65 | the loop finds the latest retry time still owed, and no owed one is later |
| `Notifications.Outbox.PrepareDelivery` | packages/backend/src/notifications.ts:45-74 | queueing and deferring in place follow the transaction function |
| `Notifications.Outbox.ClaimDelivery` | packages/backend/src/notifications.ts:113-150 | the claim transaction takes one lease and counts one attempt, or changes nothing beyond preparing |
| `Orchestrator.NeverOverbooked` | packages/backend/src/orchestrator.ts:255-281 | however many orchestrators share the table, running jobs never exceed the concurrency bound |
| `Orchestrator.RunningBounded` | packages/backend/src/orchestrator.ts:262-262 | the number of running rows of the table never exceeds the bound |
| `Orchestrator.RowsExactly` | packages/backend/src/orchestrator.ts:258-280 | what every step does to every job, written out |
| `Orchestrator.FaultsExactly` | packages/backend/src/orchestrator.ts:341-362 | a fault is retried if and only if it is retryable, an attempt is left, and nothing was killed, submitted, lost or asks for reconciliation; what the job ends as otherwise |
| `Orchestrator.EntersExactly` | packages/backend/src/orchestrator.ts:304-318 | exactly when a worker decides to execute and the coordinator lets it in |
| `Orchestrator.ClaimIsEarliestFirst` | packages/backend/src/orchestrator.ts:256-281 | a claim takes only jobs that can start, none while killed, and leaves one behind only when its hint or the bound is used up and only if it comes after all taken, by time and then id |
| `Orchestrator.StartsOnlyWhenAllowed` | packages/backend/src/orchestrator.ts:221-281 | a job starts only by a claim that picked it, not killed, due and eligible |
| `Orchestrator.LaunchedExactly` | packages/backend/src/orchestrator.ts:304-318 | the engine is started for a run by exactly the steps of workers the coordinator has let in, whatever was submitted since |
| `Orchestrator.SubmittedNeverRunsAgain` | packages/backend/src/orchestrator.ts:304-318 | from the moment a run has submitted work, in every continuation the engine is started at most once for each worker already inside; if none was, never |
| `Orchestrator.LaunchedOnlyWhenOvertaken` | packages/backend/src/orchestrator.ts:306-318 | when the engine is started on submitted work, the worker and the coordinator had both read the run earlier, before anything was submitted |
| `Orchestrator.SubmittedRunLaunched` | packages/backend/src/orchestrator.ts:304-318 | a history in which that happens: a lease is lost between the coordinator's read and the engine |
| `Orchestrator.SubmittedIsBlocked` | packages/backend/src/orchestrator.ts:384-406 | after a submission lease recovery blocks the job, and no fault read from then on leads to a retry |
| `Orchestrator.RequeuedExactly` | packages/backend/src/orchestrator.ts:341-365 | a job with submitted work goes back to the queue if and only if a decided retry for it is written |
| `Orchestrator.RequeuedOnlyWhenOvertaken` | packages/backend/src/orchestrator.ts:341-365 | in every history that retry was decided at an earlier step, before the run had submitted anything |
| `Orchestrator.RetryOvertaken` | packages/backend/src/orchestrator.ts:341-360 | a history in which that happens |
| `Orchestrator.JobTable.CountRunning` | packages/backend/src/orchestrator.ts:262-262 | the loop counts the running jobs |
| `Orchestrator.JobTable.ClaimJobs` | packages/backend/src/orchestrator.ts:265-278 | the walk takes leases on exactly the picked jobs, in order |
| `Orchestrator.JobTable.RecoverJobs` | packages/backend/src/orchestrator.ts:384-406 | every job whose lease ran out is blocked or rescheduled, and no other job changes |
| `Lanes.SelectionIsRequest` | packages/cli/src/engine-adapter.ts:146-154 | a selection is exactly the requested address set, each once, at distinct key positions that hold those addresses |
| `Lanes.SelectsExactly` | packages/cli/src/engine-adapter.ts:146-154 | a selection exists exactly when the request is non-empty and repeats nothing, every address is in the key list, and no two requested entries share an address or a position |
| `Lanes.OrderDoesNotMatter` | packages/cli/src/engine-adapter.ts:146-154 | the same set in another order gives the same outcome |
| `Lanes.ScanPositions` | packages/cli/src/fire-lane-config.ts:22-25 | the position loop accepts exactly the lists that are in range and repeat nothing, within and across lanes |
| `Lanes.ConfigureLanes` | packages/cli/src/fire-lane-config.ts:12-28 | a host configuration is accepted if and only if its positions number the fleet without gaps, in bounded lanes with rising offsets |
| `Lanes.PlanIsExact` | packages/cli/src/fire-lane-config.ts:29-38 | the plan lists each selected key index exactly once, without empty lanes, with rising offsets, and passes the engine's own check |
| `Lanes.PlannedIsConfigured` | packages/cli/src/fire-lane-config.ts:31-35 | every planned lane is a configured one cut to the fleet: same start offset, and exactly the wallets at its positions |
| `Lanes.ConfiguredIsPlanned` | packages/cli/src/fire-lane-config.ts:31-35 | every configured lane that reaches the fleet is planned |
| `Lanes.ApprovedFleetFiresOnce` | packages/engine/src/fire-lanes.ts:11-30 | from an approved wallet list, a plan exists exactly when the fleet fits, and the engine accepts it |
| `Json.ParsePrint` | packages/backend/src/canonical-store.ts:237-242 | parsing an encoded text gives back the tree with big integers as their strings |
| `Json.AtomText` | packages/backend/src/canonical-store.ts:238-238 | a big integer is encoded as its decimal digits and an `n`, in quotes |
| `Json.ArrayText` | packages/backend/src/canonical-store.ts:238-238 | a list is encoded as its items in brackets, separated by commas |
| `Json.ObjectText` | packages/backend/src/canonical-store.ts:238-238 | an object is encoded as its fields in braces, each with its quoted key, a colon and its value |
| `Json.BigTextShown` | packages/backend/src/canonical-store.ts:250-250 | a string of the big-integer shape needs no escapes, so its quoted text matches the fast-path pattern |
| `Json.FastPathAgrees` | packages/backend/src/canonical-store.ts:252-257 | on every encoded text, skipping the reviver gives the same result as running it |
| `Json.RoundTripExactly` | packages/backend/src/canonical-store.ts:237-257 | decoding an encoded tree gives it back if and only if none of its plain strings has the big-integer shape |

## Left out

- SQL text, migrations and database triggers: a transaction the database refuses is a step that does not happen.
- Custody, enablement records, chain verification, fee-policy rows and request fingerprints: one flag per admission stands for all of them.
- The clock: model time never goes back; the five-second tolerance of the admission clock is modelled, a clock that jumps back is not.
- Releasing the kill switch: allowed at any time, which is more than the code allows.
- The mint engine: its callbacks are free steps that settle, release or report facts at any time. `Settlement.SettlementsBacked` speaks of histories without the engine's own settlement callback, `Results.HashedNeverFreed` of histories without its release.
- Receipts without an attempt id, and recomputing the actual spend of a stored receipt.
- How the chain-specific reconcile builders read chains, and RPC, Telegram, HTTP, files and timers.
- Secret-like text in encoded state, JSON fractions, numbers printed with an exponent (from 1e21 on), white space and `undefined`: encoded trees hold integers below that size, strings, booleans, null, lists and field lists; repeated keys are kept as written.
- Notification retention, pacing and text: rows are never pruned, and the wait between sends only delays a claim.
- The watcher's alerts, read-failure counters and stored excess records; a bound on balance falls over several steps, which the code does not promise.
- The amount shown to the owner, which is rounded again after planning.
- Freshness of balance evidence: one flag stands for the two parsed times.
- A bound on job attempts: lease recovery reschedules without checking it, so there is none to prove. Job scheduling requests and their idempotency keys.
- Read models, health reports, message cards and service configuration: they present state and decide nothing.
- `Funding.PlanMeetsGate`: speaks of the wallet, minimum, set and fleet checks of the gate; its staleness check is the flag above.
- `Orchestrator.SubmittedNeverRunsAgain`: the coordinator's read is modelled by its check for submitted work; that it also refuses runs with any attempt, or not armed, is in `Kernel.MayStart`.
- `Store.CanonicalStore.AbortAll`: takes the open executions in any order, where the database returns them in table order.
