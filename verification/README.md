# Invoice discounting: verified protocols

A Dafny model of the parts of the invoice-discounting back end whose guarantees span several
functions: transactional protocols over shared rows, a hash-chained ledger, session and lockout state
machines, and exact integer, decimal and calendar arithmetic. Every theorem is stated for all inputs,
and for all runs where the subject is a protocol. `dafny verify dfyconfig.toml` checks everything.

| file | models |
|---|---|
| `CollectionsModel.dfy` | rows, transactions and workers of the collections module as a state machine |
| `CollectionsProofs.dfy` | what every step keeps, and what therefore holds after every run |
| `CollectionsHistory.dfy` | payment history and running balances |
| `CollectionsRaces.dfy` | where a stale read shows, and exactly when it does not |
| `CollectionsEffects.dfy` | what each transaction writes, what a worker acted on, and that every operation has its run |
| `CollectionsService.dfy` | the repository statements and service operations, in place, tied to the machine's steps |
| `Penalty.dfy` | the late-payment penalty on decimal rate strings |
| `Approvals.dfy` | the four-tier approval quorum under any interleaving, and the service in place |
| `AuditChain.dfy` | the hash-chained audit ledger |
| `JsonText.dfy` | the JSON payload texts it hashes |
| `WorkingDays.dfy` | the civil calendar and `addWorkingDays` |
| `AuthTokens.dfy`, `AuthLockout.dfy` | refresh rotation, session deletion, failed-login lockout |
| `Pricing.dfy` | risk score, grade, fee and net advance |
| `RiskConfig.dfy` | the configuration cache |
| `Envelope.dfy` | the encryption envelope and the admin user name |
| `AmlClearance.dfy` | write-once AML clearance |
| `Common.dfy`, `InvoiceStatuses.dfy` | shared vocabulary |

How a protocol is modelled. A worker reads outside a transaction, remembers what it saw, and later
commits one atomic transaction, rolls back, or (after a payment) enqueues its job. `Next` is total: a
step that is not possible leaves the state alone, so *every* list of actions is a run, with any number
of workers, any interleaving and any failure point. Under Read Committed (section 13.2.1 of the
PostgreSQL manual) an UPDATE rechecks its WHERE clause once it holds the row lock, which is why a
guarded update is one atomic step. Safety theorems say what no run does; beside them stand the effects of
each committed transaction and, for every operation, the conditions under which a run performs it. Each
service operation is also written as a class method that
changes its fields statement by statement, and is proved to do what the machine's step does.

Where the code, its own words and its database schema differ, the model follows what the code does on
that schema:

- Starting collection, marking overdue and defaulting write their audit row in the name of `SYSTEM`
  (src/services/collections/collections.service.ts:285, 1119, 1174, 1214), but `audit_logs.user_id` is a
  uuid that references users (src/shared/database/migrations/001_initial_schema.sql:407), so on the schema
  as it stands these transactions abort. `Db.systemUserKnown` says whether the insert is accepted; every
  result holds for both values. Without it no run moves an invoice to collecting, overdue or defaulted
  (`NoSystemUserNoProgress`), and from a start without collection rows the module changes nothing at all
  (`FrozenWithoutSystemUser`). A run may start with any coherent rows, such as those that migration 036
  backfilled (`BackfilledRowIsCoherent`), and on these payments, escalations and resolutions go on.
- `startCollectionMonitoring` calls itself idempotent. It is so only in serial use: there is no unique
  index on `collections.invoice_id` and the outcome of its status swap is discarded. Where `SYSTEM` is
  known, `TwoStartersLeaveTwoRows` and `TwoOverdueLeaveTwoRows` exhibit the runs, and
  `OneRowPerInvoiceIff` says of every run exactly when it leaves one row per invoice.
- Operations other than a whole-invoice payment discard the outcome of their status swap and write
  their audit row anyway. `AuditedMoveHappensIff` says when the announced move really happens, and
  `LogIsTruthfulIff` counts the false rows of every run; `TwoResolversWriteFalseRow` is a run with one.
- Resolving a row that was seen as pending, reminded or bad debt compares the invoice status with that
  word, which the enum `invoice_status` lacks (001_initial_schema.sql:32); the statement fails and the
  transaction rolls back.
- A whole-invoice payment without a collection row sends an empty string to a uuid column
  (`collection_payments.collection_id`) and rolls back.
- A comment says one management user can complete TIER_3. The code still needs a second approval
  record, but accepts it from the same manager: `OneManagerCompletesTier3`.
- Migration 013 means to admit TIER_4 approvals but leaves the older constraint `chk_approvals_tier` of
  migration 007 in place, which refuses them. `State.recordsTier4` says whether they are accepted; where
  they are not, no run decides such an invoice (`Tier4NeedsItsRecords`).
- An approver passes its status check before the lock, and its job is enqueued before the commit. So a
  rejected invoice can have a payment job (`StaleApproverPaysRejectedInvoice`) and an approved one two
  (`TwoApproversPayTwice`). `JobsAccounted` gives the number of jobs after every run, and
  `OneJobPerApprovalIff` when it is the right one.
- "Tamper-evident" holds for the hashed string. The actor, role, address and genesis columns are not
  hashed, and the text fields are joined with colons, so a record with a colon inside a field can have a
  second reading with the same hash, if that fits the columns. `SilentRewriteIff` states exactly when
  silent rewrites reach hashed columns.
- A rotated refresh token is dead on arrival when the rotation happens in the second in which the old
  token was issued, because both are then the same token: `RotatedTokenUsableIff`. The session cannot be
  refreshed again: `SameSecondRotationEndsSession`, and a client that logs in and refreshes at once gets
  there: `RefreshAtOnceEndsSession`.
- A SAR flag needs level 3 as well as the AML threshold.

Assumptions, each visible in the model:

- The rest of the platform moves an invoice only up to `funded` (`Elsewhere`); face values, buyers and
  the AML threshold do not change after funding; the day count of an escalation is an input.
- `used_limit >= 0` and `amount > 0` are the database's CHECK constraints and abort a transaction. Any
  failure not named here is left to the environment as `Rollback`.
- Tier, rejection threshold and queue configuration are fixed while an invoice is priced. Meanwhile its
  supplier may reject the pricing (`RejectPricing`), and once it is approved the payments module moves it
  on (`Onward`); both wait for the row lock.
- SHA-256 (section 6.2 of FIPS 180-4) is any function to 64 characters. Instead of postulating that it
  is injective, the tamper-evidence theorem returns a collision or a genesis preimage as the only
  alternative. A timestamp's rendering is any text that can be told from what follows it. Payloads are
  JSON objects. Appends are serial. AES-GCM is any pair of functions with the round trip of sections 7.1
  and 7.2 of NIST SP 800-38D.
- Auth and configuration runs are serial, with one clock for the process and the key store.
- `Collection.rate`, `Payment.full`, `Entry.role` (approvals), `State.accepted`, `State.issued` and
  `State.tokens` (tokens) record facts the source does not keep in a column, so that properties can speak of them.

## Model

| member | source | states |
|---|---|---|
| CollectionsProofs.LimitReducedOncePerInvoice | src/services/collections/collections.service.ts:431-540 | after every run: an invoice is paid in full at most once and is then collected, each buyer's used limit is the initial one less the faces of that buyer's paid invoices and is not negative, and an invoice has at most one settlement job and none without its payment |
| CollectionsProofs.PaymentKeeps | src/services/collections/collections.service.ts:487-520 | a committed whole-invoice payment keeps the full invariant and takes the invoice's payment count from 0 to 1, however stale the reads behind it |
| CollectionsProofs.PaymentKeepsLimits | src/services/collections/collections.repository.ts:190-202 | one reduction of one buyer by the invoice's face value, matched by exactly one more paid invoice in the log; every other buyer and invoice untouched |
| CollectionsProofs.PaymentKeepsLedger | src/services/collections/collections.repository.ts:129-144 | the full payment overwrites the total of the row it closes and no other, and the payment log still explains every total |
| CollectionsProofs.RowsCoherent | src/services/collections/collections.service.ts:178-214 | after every run each row has level 0..3, is escalated iff its level is positive among pending/overdue/escalated, is SAR-flagged at level 3 above the threshold, copies its invoice's face value, and carries the penalty of its own days and last rate (zero at zero days) |
| CollectionsModel.BackfilledRowIsCoherent | src/shared/database/migrations/036_funded_to_collecting_backfill.sql:34-53 | the rows that the migration inserts, overdue or pending and without penalty, are among those a run may start with |
| CollectionsProofs.TotalIsSumOfPayments | src/services/collections/collections.service.ts:549-614 | after every run total_collected is the sum of all recorded payments until the invoice is paid in full, and afterwards the sum from the last overwriting payment on |
| CollectionsProofs.ReplayIsTailSum | src/services/collections/collections.repository.ts:754-767 | replaying increments and overwrites equals the sum of the payments from the last overwrite on |
| CollectionsProofs.CollectionPaymentKeeps | src/services/collections/collections.service.ts:578-614 | a partial payment keeps the full invariant: its payment row and the increment agree |
| CollectionsProofs.EscalationKeeps | src/services/collections/collections.service.ts:352-395 | an automatic escalation from any remembered level keeps the full invariant |
| CollectionsProofs.ManualEscalationKeeps | src/services/collections/collections.service.ts:623-688 | a manual escalation from any remembered level keeps the full invariant, SAR flag included |
| CollectionsProofs.DeescalationKeeps | src/services/collections/collections.service.ts:693-745 | a de-escalation from any remembered level keeps the full invariant; level 0 goes back to overdue |
| CollectionsProofs.UndoEscalationIff | src/services/collections/collections.service.ts:661-745 | de-escalating right after a manual escalation restores the row, up to a raised SAR flag, iff it was overdue or escalated and below level 3; no other row changes; the flag is raised iff level 3 is reached above the threshold |
| CollectionsProofs.StartKeeps | src/services/collections/collections.service.ts:262-299 | starting collection on a stale read keeps the full invariant |
| CollectionsProofs.OverdueKeeps | src/services/collections/collections.service.ts:178-214 | marking overdue on a stale read, with or without a row, keeps the full invariant |
| CollectionsProofs.ResolveKeeps | src/services/collections/collections.service.ts:774-795 | resolving a row seen overdue or escalated keeps the full invariant, however stale that look |
| CollectionsProofs.DefaultKeeps | src/services/collections/collections.service.ts:1166-1190 | defaulting keeps the full invariant |
| CollectionsProofs.MemoryStable | src/services/collections/collections.service.ts:431-443 | what a worker remembers keeps its guarantees under every change another worker can commit |
| CollectionsProofs.StepKeeps | src/services/collections/collections.service.ts:431-540 | every action of every worker, and every move elsewhere, keeps the state invariant |
| CollectionsProofs.RunKeeps | src/services/collections/collections.service.ts:431-540 | so does every run |
| CollectionsProofs.ChangeIsAuditedAndRises | src/services/collections/collections.service.ts:203-213 | one step: a status change by this module starts from funded or beyond, strictly raises the rank and comes with exactly one audit row naming that move |
| CollectionsProofs.EveryChangeIsAudited | src/services/collections/collections.service.ts:282-292 | the same at every step of every run from an initial state |
| CollectionsProofs.ChangesBoundedByRank | src/services/collections/collections.service.ts:467-520 | the number of changes in a run is at most the rank gained, counted from funded |
| CollectionsProofs.AtMostFourChanges | src/services/collections/collections.service.ts:774-795 | an invoice changes at most four times in any run, and at most five less its starting rank; collected is absorbing |
| CollectionsHistory.LaterSumsAreLarger | src/services/collections/collections.repository.ts:642-667 | the sum of payments up to a later time is no smaller |
| CollectionsHistory.BalancesFallToOutstanding | src/services/collections/collections.repository.ts:642-667 | after every run, balances never rise down the history in paid_at order (ties in any order), and while the invoice is unpaid the latest is face value less total_collected |
| CollectionsRaces.InsertKeepsOneRowIff | src/services/collections/collections.service.ts:178-214 | either insert, by a start or by an overdue mark without a row, keeps one row per invoice iff the invoice has no row at commit, which is implied by its still being funded |
| CollectionsRaces.OneRowPerInvoiceIff | src/services/collections/collections.service.ts:140-299 | a run leaves one row per invoice iff it starts so and each of its committed inserts found none |
| CollectionsRaces.DuplicatesStay | src/services/collections/collections.service.ts:140-299 | a duplicate row never goes away |
| CollectionsRaces.TwoStartersLeaveTwoRows | src/services/collections/collections.service.ts:233-299 | where SYSTEM is a known user, from every initial state with a funded invoice there is a run of two starters that leaves two rows |
| CollectionsRaces.TwoOverdueLeaveTwoRows | src/services/collections/collections.service.ts:140-214 | so can two overdue workers for a collecting invoice without a row, as legacy data may have |
| CollectionsRaces.NoSystemUserNoProgress | src/shared/database/migrations/001_initial_schema.sql:405-416 | where SYSTEM is no user, no run from any state moves an invoice to collecting, overdue or defaulted or adds a row |
| CollectionsRaces.FrozenWithoutSystemUser | src/services/collections/collections.service.ts:282-292 | there, from an initial state without collection rows, every commit of this module aborts: rows, payments, audit log and jobs stay as they were |
| CollectionsRaces.AuditedMoveHappensIff | src/services/collections/collections.service.ts:774-795 | a commit writes one audit row, which says that an invoice moved iff the commit meant to move it; the invoice moves iff it then still has the expected status; a payment commits only if it has |
| CollectionsRaces.LogIsTruthfulIff | src/services/collections/collections.service.ts:203-213 | after every run the audit rows that say an invoice moved are as many as its moves plus the commits whose expected status was gone, so the log is truthful iff there was none |
| CollectionsRaces.TwoResolversWriteFalseRow | src/services/collections/collections.service.ts:750-795 | from every initial state with an overdue invoice and its overdue row, two officers who both looked write one audit row more than the invoice moves; no SYSTEM user is needed |
| CollectionsEffects.PaymentCommitsIff | src/services/collections/collections.service.ts:467-520 | a whole-invoice payment commits iff the invoice has the status read, a row was found, the amount is positive and the used limit covers the face value |
| CollectionsEffects.PaymentMovesScore | src/services/collections/collections.repository.ts:833-846 | a payment before the day after the due date lifts the buyer's score by five, up to 100; one that is d whole days late costs d points, at most twenty, down to 0; no other buyer changes |
| CollectionsEffects.LaterPaymentScoresNoHigher | src/services/collections/collections.repository.ts:833-846 | of two payments of one invoice the later never leaves the higher score |
| CollectionsEffects.LateDayUnique | src/services/collections/collections.service.ts:1427-1432 | days late are the whole days since the start of the due date, rounded down |
| CollectionsEffects.StartWrites | src/services/collections/collections.repository.ts:59-81 | one more row: pending, no days, no penalty, untouched, with the invoice's face value and the rate read |
| CollectionsEffects.OverdueWrites | src/services/collections/collections.service.ts:178-214 | the row found, or one more, is overdue at level zero with one day and its penalty; a row found keeps identity, total, flags and rate column |
| CollectionsEffects.EscalationWrites | src/services/collections/collections.service.ts:308-395 | the row is escalated with the given days, penalty and rate, at level one, two, three exactly from day 3, 7, 14; the demand notice is out from day 7 and the SAR flag up from day 14 above the threshold, and neither is taken back |
| CollectionsEffects.PaymentWrites | src/services/collections/collections.repository.ts:129-181 | the row found is closed at level zero with the amount as total, the rest of it and every other row unchanged, and one payment row is added |
| CollectionsEffects.CollectionPaymentWrites | src/services/collections/collections.service.ts:578-614 | commits iff the amount is positive; adds it to the total and one payment row, and changes nothing else |
| CollectionsEffects.ClosingWrites | src/services/collections/collections.repository.ts:772-783 | resolving and defaulting change one row's status and nothing else in it; resolving commits iff the row was seen overdue or escalated |
| CollectionsEffects.PhaseWasRead | src/services/collections/collections.service.ts:431-443 | whatever a worker is about to commit it once read, and passed the checks on it, earlier in the run |
| CollectionsEffects.DefaultsAreDue | src/services/collections/collections.repository.ts:325-336 | nothing is written off that was not seen at level 3, at least 90 days overdue, and overdue or escalated |
| CollectionsEffects.StartRuns | src/services/collections/collections.service.ts:233-299 | a funded invoice without a row has a run that starts it, where SYSTEM is known |
| CollectionsEffects.OverdueRuns | src/services/collections/collections.service.ts:140-214 | a collecting invoice has a run that marks it overdue, where SYSTEM is known |
| CollectionsEffects.PaymentRuns | src/services/collections/collections.service.ts:431-540 | a payment that can commit has a run that commits it and enqueues its settlement |
| CollectionsEffects.EscalationRuns | src/services/collections/collections.service.ts:318-348 | a row below the level of its days, from day 3, 7 or 14, has a run that escalates it |
| CollectionsEffects.CollectionPaymentRuns | src/services/collections/collections.service.ts:549-575 | an open row has a run that takes a partial payment |
| CollectionsEffects.ManualEscalationRuns | src/services/collections/collections.service.ts:623-658 | an open row has a run that escalates it by hand |
| CollectionsEffects.DeescalationRuns | src/services/collections/collections.service.ts:693-722 | a row with a level has a run that lowers it |
| CollectionsEffects.ClosingRuns | src/services/collections/collections.service.ts:750-795 | an overdue or escalated row has a run that resolves it, and at level 3 and 90 days one that writes it off, where SYSTEM is known |
| CollectionsService.LatestRow | src/services/collections/collections.repository.ts:226-244 | the youngest row of the invoice, or none if it has none |
| CollectionsService.CollectionsStore.UpdateInvoiceStatus | src/services/collections/collections.repository.ts:368-381 | compare-and-set: reports whether the expected status was there, and changes that one status only then |
| CollectionsService.CollectionsStore.GetCollectionByInvoiceId | src/services/collections/collections.repository.ts:226-244 | a row of the invoice with none younger, or proof that there is none |
| CollectionsService.CollectionsStore.StartCollectionMonitoring | src/services/collections/collections.service.ts:233-299 | runs the start transaction iff the invoice is funded and has no row; commits it iff SYSTEM is a known user, and otherwise changes nothing |
| CollectionsService.CollectionsStore.ProcessOverdueInvoice | src/services/collections/collections.service.ts:140-174 | runs the overdue transaction with the one-day penalty for a collecting invoice, the rate column from its own read; every other outcome changes nothing |
| CollectionsService.CollectionsStore.ExecuteOverdueTxn | src/services/collections/collections.service.ts:177-214 | the statements amount to the machine's overdue step, and are undone where SYSTEM is no user |
| CollectionsService.CollectionsStore.ExecuteEscalationTxn | src/services/collections/collections.service.ts:352-390 | the statements amount to the machine's escalation step |
| CollectionsService.CollectionsStore.ProcessEscalation | src/services/collections/collections.service.ts:318-348 | escalates only upward, with the penalty of the given days; fractional day counts are refused, those below three never escalate, and nothing else changes |
| CollectionsService.CollectionsStore.ExecutePaymentReceivedTxn | src/services/collections/collections.service.ts:487-520 | the statements amount to the machine's payment step; a missed swap, a missing collection or a broken constraint restores every row |
| CollectionsService.CollectionsStore.RecordPaymentReceived | src/services/collections/collections.service.ts:431-460 | one settlement job iff the payment committed and the queue is configured; a commit needs a collection row; every refusal and rollback leaves all rows and the queue alone |
| CollectionsService.CollectionsStore.QueueSettlementInitiation | src/services/collections/collections.service.ts:1388-1410 | one job for the invoice if the queue is configured, and nothing else |
| CollectionsService.CollectionsStore.RecordCollectionPayment | src/services/collections/collections.service.ts:549-614 | the statements amount to the machine's partial-payment step; missing and collected rows are refused |
| CollectionsService.CollectionsStore.ExecuteManualEscalationTxn | src/services/collections/collections.service.ts:661-688 | the statements amount to the machine's manual-escalation step |
| CollectionsService.CollectionsStore.EscalateCollection | src/services/collections/collections.service.ts:623-658 | one level up to 3; missing and collected rows are refused |
| CollectionsService.CollectionsStore.DeescalateCollection | src/services/collections/collections.service.ts:693-745 | one level down; level 0 and missing rows are refused |
| CollectionsService.CollectionsStore.ResolveCollectionById | src/services/collections/collections.service.ts:750-795 | the statements amount to the machine's resolve step, rolled back for a row seen pending, reminded or bad debt; missing and collected rows are refused |
| CollectionsService.CollectionsStore.DefaultSingleCollection | src/services/collections/collections.service.ts:1166-1190 | the statements amount to the machine's default step, rolled back where SYSTEM is no user |
| Penalty.ScaledRateIsFloor | src/services/collections/collections.service.ts:94-97 | splitting, padding and slicing a rate string yields the floor of its value times 10^6, exactly when six digits suffice |
| Penalty.MovePoint | src/services/collections/collections.service.ts:94-97 | shifting the decimal point past n digits turns them into an integer |
| Penalty.PenaltyWithinBound | src/services/collections/collections.service.ts:86-101 | 0 <= fv·days·r - penalty < 1 + fv·days/10^6 for every well-formed rate, and < 1 when the rate has at most six fractional digits |
| Penalty.PenaltyMonotone | src/services/collections/collections.service.ts:86-101 | the penalty is monotone in face value, days and the value of the rate string |
| Penalty.PenaltySplitsOverDays | src/services/collections/collections.service.ts:86-101 | p(a) + p(b) <= p(a + b) <= p(a) + p(b) + 1 |
| Approvals.TierMonotone | src/services/approvals/approvals.service.ts:90-114 | a larger invoice, a worse score or an AML flag never lowers the tier |
| Approvals.TierBegins | src/services/approvals/approvals.service.ts:90-114 | tier 4 begins above 200 million or below score 30, tier 3 above 50 million or below 50, tier 2 from 10 million or below 75 or with an AML flag |
| Approvals.DecisionIsBacked | src/services/approvals/approvals.service.ts:384-452 | after every interleaving: approved or moved on from there has its tier's quorum committed and a job enqueued if the queue is configured; rejected has its deciding rejection or a pricing rejection by the supplier; still priced has none of these; no other status arises |
| Approvals.DecisionIsFinal | src/services/approvals/approvals.repository.ts:259-271 | no continuation of a run changes a rejected status, or turns an approved invoice priced or rejected again |
| Approvals.PricedBelowThreshold | src/services/approvals/approvals.service.ts:719-747 | the tier-3 counter is the number of rejections since the last reset, and is below the threshold while the invoice is priced |
| Approvals.JobsAccounted | src/services/approvals/approvals.service.ts:476-479 | after every run the payment jobs are one for the approval, committed or enqueued under the lock, plus one for each enqueue on an invoice no longer priced and each rollback after an enqueue |
| Approvals.OneJobPerApprovalIff | src/services/approvals/approvals.service.ts:409-425 | once the lock is free there is one job for an approved invoice and none for any other iff the run never enqueued for a decided invoice nor rolled back after enqueueing |
| Approvals.TwoApproversPayTwice | src/services/approvals/approvals.service.ts:335-360 | some run ends with an approved tier-2 invoice and two payment jobs |
| Approvals.Tier4NeedsItsRecords | src/shared/database/migrations/013_checkers_gap_closure.sql:130-147 | while the older CHECK constraint refuses TIER_4, no run records a decision on such an invoice or enqueues its payment |
| Approvals.StaleApproverPaysRejectedInvoice | src/services/approvals/approvals.service.ts:327-360 | some run ends with a rejected tier-2 invoice and a payment job for it |
| Approvals.OneManagerCompletesTier3 | src/services/approvals/approvals.service.ts:538-591 | from every initial tier-3 state one manager can supply both records and the approval |
| Approvals.TurnedAwayIff | src/services/approvals/approvals.service.ts:567-650 | under the lock an approver is turned away iff, in tier 3, not management and already on record; in tier 4, on record, or neither management nor credit officer, or the record is refused; never in the other tiers |
| Approvals.OneSignatureCompletes | src/services/approvals/approvals.service.ts:481-532 | in AUTO and TIER_2 any one user has a run that approves the invoice |
| Approvals.TwoUsersCompleteTier3 | src/services/approvals/approvals.service.ts:538-560 | in tier 3 any two different users, whatever their roles, have a run that approves the invoice |
| Approvals.ManagerCompletesTier4 | src/services/approvals/approvals.service.ts:597-634 | in tier 4, where its records are accepted, a credit officer or manager followed by another user who is management have a run that approves the invoice |
| Approvals.ValidatedSawPriced | src/services/approvals/approvals.service.ts:327-346 | whoever is past the first check once saw the invoice priced |
| Approvals.ApprovalKeeps | src/services/approvals/approvals.service.ts:538-650 | an approval committed under the lock keeps the row invariant, and completes the quorum exactly when the code says so |
| Approvals.RejectionKeeps | src/services/approvals/approvals.service.ts:714-747 | a rejection keeps the row invariant in every tier |
| Approvals.HandOver | src/services/approvals/approvals.repository.ts:84-97 | the lock holder may commit any sound row: no other worker's memory depended on the old one |
| Approvals.StepKeeps | src/services/approvals/approvals.service.ts:384-425 | every step keeps the invariant |
| Approvals.RunKeeps | src/services/approvals/approvals.service.ts:384-425 | so does every run, with configuration and decisions unchanged |
| Approvals.ApprovalDesk.CountExisting | src/services/approvals/approvals.service.ts:534-536 | counts the approvals among the records |
| Approvals.ApprovalDesk.ExecuteApproval | src/services/approvals/approvals.service.ts:384-452 | refuses the wrong status; refuses, in tier 3, a user on record who is not management, in tier 4 a user on record or of another role; rolls back a record the database refuses; each time changing nothing; otherwise the new row is the machine's, with a job iff quorum and queue |
| Approvals.ApprovalDesk.ExecuteRejection | src/services/approvals/approvals.service.ts:772-818 | the new row is the machine's rejection step, or the old one if the record is refused; no job |
| Approvals.ApprovalDesk.ResetTier3RejectionCount | src/services/approvals/approvals.service.ts:850-898 | the counter restarts, nothing else changes |
| Approvals.ApprovalDesk.PersistPricingRejection | src/services/pricing/pricing.service.ts:352-382 | rejected if still priced, and marked as turned down by the supplier in any case |
| AuditChain.TipDeterminesHistory | backend/apps/audit/models.py:40-52 | two verified ledgers with one tip hash have equal length and equal hashed strings throughout, or exhibit a SHA-256 collision or a genesis preimage |
| AuditChain.ColonFreeIsUnique | backend/apps/audit/models.py:40-52 | without colons in the text fields the joined string determines them |
| AuditChain.Ambiguous | backend/apps/audit/models.py:40-52 | with a colon in a field there is a different record, of whatever widths, with the same joined string |
| AuditChain.OtherReadingIff | backend/apps/audit/models.py:16-21 | other fields that fit their columns and join to the same string exist iff three colons of that string cut it so |
| AuditChain.OtherReadingNeedsColon | backend/apps/audit/models.py:16-21 | colon-free fields have no other reading; fields with a colon have one whenever the joined string is at most 100 characters |
| AuditChain.RewriteVerifiesIff | backend/apps/audit/engine.py:51-74 | overwriting a whole row goes unnoticed by the next reading, which sorts by timestamp and id, iff the new row keeps its place between its neighbours, keeps the pointer, carries its own hash and, below the tip, the old hash |
| AuditChain.MovedBreaks | backend/apps/audit/engine.py:56-72 | a row that is read at any other position than its old one breaks the chain |
| AuditChain.SilentRewriteIff | backend/apps/audit/models.py:40-52 | the rewrites of a row with the same hashed string, all of which verify when read again, keep timestamp, text fields and payload iff the text fields have no other reading that fits; the unhashed columns can always be rewritten |
| AuditChain.AcceptedRewriteIsHarmless | backend/apps/audit/engine.py:51-74 | any overwriting of a colon-free row below the tip that the next reading accepts keeps every hashed column or exhibits a SHA-256 collision |
| AuditChain.HashedColumnsUnique | backend/apps/audit/models.py:40-52 | with an object payload the hashed string determines timestamp, payload and joined fields, and colon-free fields themselves |
| JsonText.ObjectEndsInNoObject | backend/apps/audit/models.py:42-51 | no JSON object text ends, after a colon, in another one |
| JsonText.DumpIsObjectText | backend/apps/audit/models.py:42-42 | the printed text of every JSON object, nested and escaped in any way, is such an object text |
| JsonText.DumpInjective | backend/apps/audit/models.py:42-42 | different JSON values print different texts, members taken in the order of their keys |
| AuditChain.PayloadValueUnique | backend/apps/audit/models.py:40-52 | the hashed string determines the payload as a value, not only as a text |
| AuditChain.AppendVerifiesIff | backend/apps/audit/engine.py:25-49 | an append keeps a verified ledger verified iff the new entry sorts last by (timestamp, id) |
| AuditChain.InsertedKeepsOrder | backend/apps/audit/engine.py:56-56 | a new row leaves the others as they stand and the whole in order of timestamp, then id |
| AuditChain.IncreasingEventsVerify | backend/apps/audit/engine.py:25-49 | any events with increasing timestamps yield a verifying chain that holds them in order, column by column |
| AuditChain.AuditLedger.RecordAuditEvent | backend/apps/audit/engine.py:9-49 | the entry points at the last row and is placed by the ordering; a hash already present or a value too long for its column is refused |
| AuditChain.AuditLedger.VerifyAuditChain | backend/apps/audit/engine.py:51-74 | valid iff every block is sound; otherwise the index of the first unsound block and which of its two checks failed |
| WorkingDays.DayFromYearFormula | src/shared/working-days.ts:26-35 | the year-by-year day numbers equal the closed form of section 21.4.1 of ECMA-262 |
| WorkingDays.CalendarAdvances | src/shared/working-days.ts:31-35 | day number 0 is 1970-01-01 and each next number is the next civil date |
| WorkingDays.WeekDayOfDate | src/shared/working-days.ts:26-29 | day numbers carry the weekday that the usual rule gives their civil date, in every year |
| WorkingDays.WeekendByDate | src/shared/working-days.ts:26-29 | the days off are the Saturdays and Sundays of the civil calendar |
| WorkingDays.WeekendAnchor | src/shared/working-days.ts:26-29 | 1 January 2000 and the day after are off, the five days after them are not |
| WorkingDays.HolidayByOrdinal | src/shared/working-days.ts:14-35 | the holiday test by month and day in terms of the day of the year |
| WorkingDays.FixedHolidaysSpaced | src/shared/working-days.ts:14-24 | no two holidays are two, three or four days apart, in any year or across new year |
| WorkingDays.WorkingDayWithinFive | src/shared/working-days.ts:26-35 | any five consecutive dates contain a working day |
| WorkingDays.NextWorkingDay | src/shared/working-days.ts:45-50 | the first working day after a date, at most five days on |
| WorkingDays.AddWorkingDaysOn | src/shared/working-days.ts:41-52 | the loop terminates for every spaced calendar; the result is the day with exactly n working days in (from, result], itself one when n > 0, at most 5n days on, time of day kept; a negative n is refused |
| WorkingDays.AddWorkingDays | src/shared/working-days.ts:41-52 | the same with the fixed public holidays |
| WorkingDays.ResultUnique | src/shared/working-days.ts:41-52 | there is only one such day |
| WorkingDays.AddingComposes | src/shared/working-days.ts:41-52 | adding a then b working days is adding a + b |
| AuthTokens.KeyOutlivesToken | src/services/auth/auth.service.ts:400-426 | an accepted token is refused at every later time, since its blocklist key outlives its expiry |
| AuthTokens.RefreshAtMostOnce | src/services/auth/auth.service.ts:349-426 | in every serial run each token identity is accepted at most once and never again |
| AuthTokens.GoneSessionNeverRefreshes | src/services/auth/auth.service.ts:349-380 | a session that is deleted or past its expiry stays gone, and no continuation accepts a refresh for it |
| AuthTokens.RotatedTokenUsableIff | src/services/auth/auth.service.ts:381-399 | the rotated token works iff the rotation does not fall in the second in which the old token was issued |
| AuthTokens.OneUsableTokenPerSession | src/services/auth/auth.service.ts:381-426 | in every serial run each session has at most one refresh token that would be accepted |
| AuthTokens.SameSecondRotationEndsSession | src/services/auth/auth.service.ts:381-426 | after a rotation within that second no continuation accepts a refresh for the session |
| AuthTokens.RefreshAtOnceEndsSession | src/services/auth/auth.service.ts:1051-1082 | from every start, logging in and refreshing within the second leaves a live session whose refreshes are all refused |
| AuthTokens.RefreshAcceptedIff | src/services/auth/auth.service.ts:349-426 | in every serial run a refresh is accepted iff the token was signed and is unused and before its expiry, the session's login was less than 604800000 ms ago, and no logout or invalidation has removed the session since |
| AuthTokens.FirstRefreshAcceptedIff | src/services/auth/auth.service.ts:1163-1173 | on the events alone: an untried login token is accepted iff within its lifetime from the second of the login, within seven days of the login, and the session was not removed |
| AuthTokens.LivesUntil | src/services/auth/auth.service.ts:326-342 | a session lives exactly until its expiry or the first event that removes it |
| AuthTokens.InvalidationIsExact | src/services/auth/auth.service.ts:1342-1383 | the user keeps no live session but the kept one; everyone else's data is as before |
| AuthTokens.SessionStore.RefreshAccessToken | src/services/auth/auth.service.ts:349-426 | reply and new key store are the machine's, error by error |
| AuthTokens.SessionStore.IssueFullTokens | src/services/auth/auth.service.ts:1051-1082 | a login leaves the machine's session and first refresh token |
| AuthTokens.SessionStore.DeleteSessionsByUserId | src/services/auth/auth.service.ts:1360-1383 | for any paging that covers the keys, repeats allowed, exactly the user's live sessions but the kept one are deleted |
| AuthLockout.EvaluationsOrdered | src/services/auth/auth.service.ts:79-147 | password comparisons come in time order and not before a standing lock ends |
| AuthLockout.LockSpacesEvaluations | src/services/auth/auth.service.ts:892-966 | from the fifth failure on, any two comparisons are at least thirty minutes apart |
| AuthLockout.AtMostFivePerWindow | src/services/auth/auth.service.ts:892-966 | with no correct password, every half-open thirty-minute window holds at most five comparisons |
| AuthLockout.TurnedAwayIff | src/services/auth/auth.service.ts:892-966 | from an account without failures an attempt meets a lock iff five or more passwords were compared before it and the last failure is less than 30 minutes old; otherwise an active, verified user is let through |
| AuthLockout.LockFollowsFailures | src/services/auth/auth.service.ts:917-966 | the counter is the number of comparisons, and the lock runs 30 minutes from the last failure, from the fifth on |
| AuthLockout.LoginAccount.Login | src/services/auth/auth.service.ts:79-147 | which refusals leave the row alone, what a wrong password writes, and that a right one resets it |
| Pricing.ScoreMonotone | backend/apps/risk_engine/scorer.py:13-66 | better factors never lower the rounded score, however exact halves are resolved |
| Pricing.ScoreRange | backend/apps/risk_engine/scorer.py:13-66 | every score lies in 47..93 |
| Pricing.ScoreIsNearest | backend/apps/risk_engine/scorer.py:58-66 | the score is within half a point of the weighted sum |
| Pricing.TenorSteps | backend/apps/risk_engine/scorer.py:19-27 | after 30, 60 and 90 days the sum falls by 2, 3 and 4 points, and nowhere else |
| Pricing.TrackSteps | backend/apps/risk_engine/scorer.py:29-37 | with the first, fifth and tenth invoice of the supplier it rises by 1.4, 2 and 2 points, and nowhere else |
| Pricing.RatingSteps | backend/apps/risk_engine/scorer.py:13-17 | what each rating costs against the next, with an unknown one between A and BBB |
| Pricing.ConcentrationSteps | backend/apps/risk_engine/scorer.py:39-53 | up to a tenth, a quarter, half of the buyer's limit and beyond it costs 0, 1.5, 3.75 and 6 points, without a limit 5.25 |
| Pricing.BestScore | backend/apps/risk_engine/scorer.py:55-66 | the best invoice has a sum of 93.4, and a missing assignment costs one point |
| Pricing.QuantizeMonotone | backend/apps/pricing/calculator.py:33-36 | half-even rounding to cents is monotone |
| Pricing.QuantizeAtMost | backend/apps/pricing/calculator.py:33-36 | a number rounds to at most y iff it is within half a cent of the whole cents of y, ties going by parity |
| Pricing.FeeMonotone | backend/apps/pricing/calculator.py:14-36 | a worse grade or a longer tenor never lowers the fee |
| Pricing.NetAdvanceMonotone | backend/apps/pricing/calculator.py:14-41 | through score, grade, rates, fee and clamp, on issue and due dates: a later due date never raises, a better rating or a signed assignment never lowers the net advance |
| Pricing.ChargedUntilDue | backend/apps/invoices/models.py:75-80 | due d days after issue, an invoice is charged and scored for d days, and k days later for k more |
| Pricing.UnusualDueDates | backend/apps/invoices/models.py:75-80 | no due date prices as due 30 days after issue, one on or before the issue date as due the day after |
| Pricing.RatesByScore | backend/apps/pricing/calculator.py:14-29 | 15.5 per cent a year and 85 per cent advanced from 80 points on, then 16.75, 18.5 and 20.5 per cent from 65, from 50 and below, at 80 per cent |
| Pricing.AdvanceSplitsIff | backend/apps/pricing/calculator.py:29-41 | for an invoice's face value, grade and tenor: fee and net advance add up to the gross advance if the unrounded fee is within half a cent of the whole cents of the gross advance, and beyond that the payout is zero, for any rounding error of the context; an iff without one |
| Pricing.AdvanceSplitsExactly | backend/apps/pricing/calculator.py:29-41 | for a face value in whole cents and a context precise enough for the fee, as one of 28 digits is below 3.9 * 10^19 cents, they add up iff the unrounded fee is below that limit, the limit itself excepted |
| RiskConfig.CacheIsExplained | src/shared/risk-config.ts:38-92 | a filled cache was loaded by some earlier read that found it missing or stale, and no update by this process has happened since |
| RiskConfig.ReadIsFresh | src/shared/risk-config.ts:70-76 | in every serial run a read returns the table over the defaults, or the defaults if that very load failed, as seen by its own load or by that of an earlier read which finished at most 300000 ms ago; the load was due, and no update by this process is later |
| RiskConfig.UpdateIsSeen | src/services/admin/admin.service.ts:290-305 | a read right after an update sees it, and every other key as the table has it |
| RiskConfig.ServedFromCache | src/shared/risk-config.ts:70-76 | for 300000 ms after a load every read is served from it, whatever others write, unless this process updates |
| RiskConfig.FreshValue | src/shared/risk-config.ts:70-76 | a successful load reads a key as its row, else its default, else 0 |
| RiskConfig.MergeMissing | src/shared/risk-config.ts:48-53 | the loop computes the defaults overridden by the rows |
| RiskConfig.ConfigCache.LoadRiskConfig | src/shared/risk-config.ts:38-65 | the cache becomes the merged table, or the defaults when the query fails |
| RiskConfig.ConfigCache.GetRiskConfigValue | src/shared/risk-config.ts:70-76 | value and new cache are the machine's |
| RiskConfig.ConfigCache.UpdateRiskConfig | src/services/admin/admin.service.ts:290-305 | an unknown key is refused and changes nothing; otherwise table written, cache dropped |
| Envelope.HexRoundTrip | src/shared/crypto.ts:37-37 | decoding undoes hex encoding, and no hex text contains a colon or starts with v |
| Envelope.ParseUndoesPrint | src/shared/crypto.ts:61-136 | parsing undoes printing in both formats for every IV of either length, tag and ciphertext, the empty one included |
| Envelope.FormatsAreDisjoint | src/shared/crypto.ts:61-74 | no text is both versioned and legacy |
| Envelope.ParsedIsValid | src/shared/crypto.ts:61-136 | whatever parses has an IV of 12 or 16 bytes, a tag of 16, and three pieces or four with a version |
| Envelope.OthersAreRefused | src/shared/crypto.ts:79-136 | a printed text with other lengths, or under another version digit, does not parse |
| Envelope.DecryptUndoesEncrypt | src/shared/crypto.ts:27-55 | decryption undoes encryption through the text envelope, given GCM |
| Envelope.NameRejoins | src/services/admin/admin.service.ts:80-112 | splitting a name at its first blank and rejoining restores the trimmed name, or gives Unnamed |
| Envelope.NameSplits | src/services/admin/admin.service.ts:102-112 | the first name is what precedes the first blank of the trimmed name, the last name the rest |
| Envelope.TrimIsCore | src/services/admin/admin.service.ts:102-104 | trimming takes all blanks off both ends and nothing else |
| Envelope.UnreadableIsUnnamed | src/services/admin/admin.service.ts:49-83 | halves that are missing or cannot be decrypted count as empty, and a user with neither is Unnamed |
| Envelope.CreatedNameReadsBack | src/services/admin/admin.service.ts:142-181 | a created user's name reads back, through encryption, as its trimmed input or Unnamed |
| AmlClearance.RunCoherent | src/services/compliance/aml-clearance.repository.ts:104-123 | every run keeps the three columns set together with one matching audit row, and never changes them once set |
| AmlClearance.ClearedOnceForAll | src/services/compliance/aml-clearance.service.ts:53-76 | under every interleaving of officers clearance commits at most once and is immutable, its audit row included |
| AmlClearance.ClearedByItsOfficer | src/services/compliance/aml-clearance.service.ts:53-76 | the columns of a cleared invoice hold the time of the commit that cleared it and the officer and reason of that worker's own check |
| AmlClearance.CheckedBefore | src/services/compliance/aml-clearance.service.ts:142-158 | whoever is about to commit was let in when the invoice was flagged and not cleared |
| AmlClearance.ClearanceRuns | src/services/compliance/aml-clearance.service.ts:166-209 | a flagged invoice without clearance can be cleared by anyone who is let in |
| AmlClearance.ClearanceDesk.ClearInvoice | src/services/compliance/aml-clearance.service.ts:142-209 | cleared iff flagged and not yet cleared; each refusal changes nothing |

## Left out

- Express and Django routing, validation schemas and role guards: request plumbing.
- Queue, key-store and database internals: kept as a multiset or count of jobs, a key map with expiry, and rows with guarded updates.
- bcrypt, TOTP, JWT signing, AES and SHA internals: abstract functions.
- PDF, notification and logging payloads, escalation documents, SAR filing, reminders, information requests, credit memos and SLA breaches: no state the properties depend on.
- The batch loops over candidates: each candidate is one call of a modelled operation, and failures are already any step's `Rollback`.
- Dashboard and list queries other than the payment history: reporting.
- CollectionsService.CollectionsStore.GetCollectionByInvoiceId: is exact for serial use; in the state machine a lookup may return any row of the invoice, because `created_at` is the start of the inserting transaction and need not follow commit order.
- Penalty.PenaltyWithinBound: rate strings with signs, blanks or a hexadecimal prefix, which `BigInt` would accept, are outside the well-formed ones; an empty part reads as zero, as in the code.
- Approvals.ApprovalDesk.ExecuteApproval: the desk is one existing, scored invoice; the not-found errors and the review-summary length check are not modelled.
- JsonText.DumpInjective: lone surrogates, which Python strings may hold, are no characters here; numbers are compared by their printed text.
- Approvals.StepKeeps: a lock request that finds the row locked fails in the code (NOWAIT); in the model it may also try again later, which only adds runs.
- AuditChain.AuditLedger.RecordAuditEvent: concurrent appends, which can fork an empty or growing ledger, are not modelled.
- AuditChain.IncreasingEventsVerify: a repeated digest or an over-long value, which the database refuses, is not considered in this fold of appends; `RecordAuditEvent` covers both.
- WorkingDays.AddWorkingDays: fractional n and the limits of the JavaScript Date range are not modelled.
- AuthTokens.RefreshAtMostOnce: concurrent refreshes of one token, which can both pass the blocklist check, are not modelled; every token has the same lifetime, as one function signs them.
- AuthLockout.AtMostFivePerWindow: concurrent logins, which can share one look at the lock, are not modelled.
- Pricing.ScoreMonotone: float error in the composite and in the concentration ratio is abstracted; only exact halves of the composite are left open.
- Pricing.AdvanceSplitsExactly: a fee of exactly half a cent over the whole cents of the gross advance is left open, because there the context's own rounding of tenor/365 decides.
- Pricing.FeeMonotone: the decimal context is any rounding that keeps order and sign; face values are not negative.
- Envelope.DecryptUndoesEncrypt: UTF-8 and the error of a missing or malformed key are not modelled.
- RiskConfig.ReadIsFresh: the five minutes run from the end of a load, as in the code; the table was seen when that load began.
