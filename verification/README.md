# Verification of the comparison, collection and release scripts

A Dafny 4.11 model of the protocol, accounting, arithmetic and run-control code of the
repository, with proofs about whole runs. `dafny verify dfyconfig.toml` checks the project.

* **Budget protocol.** `BudgetIpcClient` is the child's side of the newline-framed IPC channel,
  `BudgetIpcParent` the parent's, and `BudgetIpcSystem` joins the client with a coordinator that
  answers in any order over two first-in first-out streams, with aborts, failed writes and
  departures at any point. Behind it, `BillingContract`, `BudgetLedger` and `BudgetRepo` are the
  ledger that reserves, dispatches, settles, releases and closes under one approved ceiling.
* **Cost report.** `CostReconciliation` dedupes physical attempts, `CostAllocation` splits and
  accumulates their charges (a null entry absorbs whatever is added to it), and `RowProjection`
  lays them over the input rows.
* **Identity benchmark.** `WilsonInterval` and `ActivationFloor` are the score interval and the
  gate built on it, over exact reals; `Gtin` is the check-digit code of section 7.9 of the GS1
  General Specifications as the gold benchmark uses it.
* **Source collection.** `SourceWindow` is the shared request window, `LeadFetch` and `LeadDomains`
  the bounded lead runner, `UrlIdentity` and `ExclusionBank` the product identity and the sealed
  sets, `SitemapCrawl` the crawl with a growing queue and `SitemapPages` what its pages add up to,
  `FamilySplit` the grouping and the family-locked split.
* **Release and store scripts.** `ProfileDedupe` is the profile merge with its fingerprint cache,
  `Shuffle` and `PoolSampler` the quota sampler, `AutoAcceptRepair` the transactional repair.

`Common`, `Sums` and `IdOrder` hold shared datatypes, sums and the order of identifiers.

Code that changes state step by step is a class or a method with loops, proved against functions on
values; the properties of whole runs are lemmas about those functions. What those functions do is stated
once more on the values alone, without naming them, so that each is tied to the source twice: by the
lemmas called `…Exactly` and `…Means` beside them, and in `BudgetEffects` (the ledger's rows),
`CostTotals` and `RowDispositions` (the report), `SitemapEffects` (the crawl), `FamilyEffects` (the
split) and `RepairEffects` (the repair's tables). Callees outside the model
(network, regular expressions, hashes, page proof, evaluators, sorts by locale) are arbitrary
functions.

## Where a promise fails, and exactly when

* A closed coordinator can have children: `attach` latches `closed` when it finds the ledger stopped,
  and leaves the children attached before (`RefusedAttachLeavesChildren`). One step does so exactly as
  `ClosedWithChildrenExactly` says, and a run passes through such a coordinator if and only if some
  event of it is an attach on an open coordinator that has children and a stopped ledger
  (`ClosedWithChildrenRunExactly`). After `close` there are none, for ever (`CloseIsFinal`).
* A request id the client still knows can break its promises. An exchange leaves some promise
  unsettled though nothing waits for it if and only if the client is open, the call is not rejected at
  once and the id is pending (`ExchangeSettlesExactly`), and that promise is then never settled, unless
  its own write fails or its own signal fires (`DuplicateIdOrphansAPromise`); an abandoned id
  lets the late reply to the first request resolve the second (`AbandonedIdTakesLateReply`); and an
  answered id is not safe either, because a write of the first request that fails late takes the
  second off the table (`LateWriteErrorOrphansAPromise`). The exact condition, checked before each
  event: an exchange uses an id that is neither pending nor abandoned, and no write fails whose id
  another request holds. A handler keeps the client's invariant if and only if its event meets it
  (`StepExactly`), a run keeps it throughout if and only if every event does (`RunExactly`), and so does
  the joint invariant with the coordinator (`NextExactly`). Fresh ids, which the caller draws, always
  meet it (`FreshIsAdmitted`).
* Two rows can be charged for one item: if and only if they carry the same UPC, it has an item, neither
  is marked duplicate, and nothing before the later row has claimed the UPC (`SharedExactly`). The
  earlier row is then marked invalid or skipped (`JoinedOnce`); the later one may be too
  (`InvalidRowsShareACharge`) or may be an imported row (`ImportedSharesWithInvalid`).
* A pilot domain that is used up with nothing passed pauses the block exactly when its last lead was
  attempted: a last lead excluded before fetching takes no verdict (`ExhaustedPilotGoesOn`,
  `PilotPausesExactly`).
* The status `abandoned-zero-kept` is announced in the script's contract and never given
  (`AbandonedIsUnreachable`).
* Set lookup and pairwise product test agree for two URLs of one kind, with an authority or opaque
  (`KeyIsIdentity`). For a mixed pair the keys are equal exactly when the opaque path spells the page's
  site and path (`KeyExactly`, `OpaqueUrlCollides`), and an opaque path spells some page if and only if
  its part before the first slash is the site root of one of the four pages it can stand for and that
  page exists, whatever hosts and paths the URL parser accepts (`OpaqueCollidesExactly`). A bank with an
  opaque row then excludes those pages too (`ExcludedExactly`).

## Model

| member | source | states |
|---|---|---|
| BudgetIpcClient.EveryRunSettlesOnce | scratch/comparison-budget.ts:64-128 | over every interleaving of exchange, reply, abort, write result and stream end whose events are admitted: each promise is settled at most once and only by its own reply, is unsettled exactly while pending, has a live abort listener exactly while pending, and after disconnect all are settled and the tables empty |
| BudgetIpcClient.ClosedForEver | scratch/comparison-budget.ts:64-77 | from any closed client that meets the invariant: nothing is written, settled or reopened by any event at all, and later exchanges are rejected as disconnected |
| BudgetIpcClient.StepKeepsInv | scratch/comparison-budget.ts:79-128 | every handler keeps the client invariant when its event is admitted, and closing is never undone |
| BudgetIpcClient.DuplicateIdOrphansAPromise | scratch/comparison-budget.ts:110-119 | from any sound open client: an exchange under a pending id orphans the promise of the earlier one, which no later run settles unless its own write fails or its own signal fires |
| BudgetIpcClient.OrphanedForEver | scratch/comparison-budget.ts:64-128 | whatever ids are used, a promise no pending entry leads to stays as it is over every run without a failed write of its own or its own signal |
| BudgetIpcClient.DuplicateIdRun | scratch/comparison-budget.ts:110-119 | the shortest run: two exchanges with one id, then a disconnect that settles only the second promise |
| BudgetIpcClient.StepExactly | scratch/comparison-budget.ts:79-128 | a handler keeps the invariant if and only if its event is admitted: an exchange reuses no id still pending or abandoned, and no write fails whose id another request has taken |
| BudgetIpcClient.RunExactly | scratch/comparison-budget.ts:64-128 | the invariant holds all along a run if and only if every event of it is admitted |
| BudgetIpcClient.ExchangeSettlesExactly | scratch/comparison-budget.ts:100-119 | an exchange leaves every promise unsettled only while pending if and only if it is rejected at once or its id is not pending |
| BudgetIpcClient.FreshIsAdmitted | src/ai/paid-effect-budget.ts:315 | a run in which every exchange draws a new id is admitted |
| BudgetIpcClient.AbandonedIdTakesLateReply | scratch/comparison-budget.ts:84-92 | a reused abandoned id: the late reply to the first request resolves the second |
| BudgetIpcClient.LateWriteErrorOrphansAPromise | scratch/comparison-budget.ts:120-126 | a reused answered id: the late write error of the first request settles its promise twice and leaves the second unsettled |
| BudgetIpcClient.IpcClient.Disconnect | scratch/comparison-budget.ts:64-77 | the loop that rejects the outstanding requests reaches the specified state: closed, tables and listeners empty, composed signals cancelled first |
| BudgetIpcClient.IpcClient.Abort | scratch/comparison-budget.ts:111-118 | abort listeners fired one at a time: each moves its request to the abandoned set and rejects it as cancelled |
| BudgetIpcClient.IpcClient.OnLine | scratch/comparison-budget.ts:79-93 | one reply line: malformed or unknown ends the channel, abandoned is dropped, pending is resolved |
| BudgetIpcClient.IpcClient.Exchange | scratch/comparison-budget.ts:100-128 | a new request: rejected when closed or already aborted, else pending and written |
| BudgetIpcClient.IpcClient.OnWritten | scratch/comparison-budget.ts:120-126 | the write callback disconnects exactly when the write failed while its request was pending |
| BudgetIpcClient.ExchangeMeans | scratch/comparison-budget.ts:100-128 | field by field what an exchange does: rejected as disconnected or cancelled at once, else written, pending with its promise, and listening if it has a signal |
| BudgetIpcClient.AbortMeans | scratch/comparison-budget.ts:111-118 | the unsettled calls whose signal fires are rejected as cancelled, their ids abandoned, and nothing else changes |
| BudgetIpcClient.LineMeans | scratch/comparison-budget.ts:79-93 | a reply to a pending id resolves exactly its promise, one to an abandoned id only clears it, and a malformed line or any other id ends the channel: closed, tables empty, every unsettled call rejected |
| BudgetIpcClient.StreamEndMeans | scratch/comparison-budget.ts:94-98 | the end of a stream closes the channel, empties the tables and rejects every unsettled call |
| BudgetIpcClient.WriteMeans | scratch/comparison-budget.ts:120-126 | a failed write of an unsettled call rejects it and ends the channel; any other write result changes nothing |
| BudgetIpcSystem.FlightExact | scratch/comparison-budget.ts:79-128 | in every state reachable by admitted steps of client, streams and coordinator no id is in flight twice, and while the client is open the ids in flight are pending or abandoned, never both; without losses the converse holds |
| BudgetIpcSystem.UnknownReplyUnreachable | scratch/comparison-budget.ts:84-92 | the disconnect on an unknown id cannot happen: the next reply settles exactly the request it answers or takes one abandoned id off the table |
| BudgetIpcSystem.EveryDeliveryDrains | scratch/comparison-budget.ts:84-181 | while both sides are there and nothing is lost, every schedule of reads, answers and replies ends after exactly the work in flight, and then nothing is in flight and every promise is settled, those unsettled before by a reply to their own request |
| BudgetIpcSystem.Drain | scratch/comparison-budget.ts:84-128 | from every live state some schedule of deliveries drains both streams |
| BudgetIpcSystem.RunSound | scratch/comparison-budget.ts:172-181 | every admitted run keeps the joint invariant of the two sides |
| BudgetIpcSystem.NextExactly | scratch/comparison-budget.ts:79-181 | a step keeps the joint invariant if and only if it is admitted |
| BudgetIpcSystem.FreshStepsAdmitted | src/ai/paid-effect-budget.ts:315 | a run of the whole system in which every request draws a new id is admitted |
| BudgetIpcSystem.ReusedIdInFlightTwice | scratch/comparison-budget.ts:100-128 | a request is in flight beside another of the same id if and only if the client still held that id |
| BudgetIpcSystem.StreamsExactly | scratch/comparison-budget.ts:79-181 | what reading, answering, detaching and reply delivery move between the streams; an answer is sent exactly while the child is attached, else dropped |
| BudgetIpcSystem.IssueExactly | scratch/comparison-budget.ts:100-128 | an accepted exchange puts its request behind those on the stream, a rejected one nothing |
| BudgetIpcSystem.LostWriteExactly | scratch/comparison-budget.ts:120-126 | a failed write that was not delivered takes its own request off the stream and no other |
| BudgetIpcSystem.DetachedIsSilent | scratch/comparison-budget.ts:165-181 | over every run after the parent detached the child no reply is put on its stream |
| BudgetIpcParent.DetachedChildIsSilent | scratch/comparison-budget.ts:165-181 | a detached child is never written to again, whatever answers are on their way |
| BudgetIpcParent.AnswerExactly | scratch/comparison-budget.ts:172-181 | an answer is appended to what child i was written if and only if it is attached with a live stdin; no other record and nothing else of the coordinator changes |
| BudgetIpcParent.AttachExactly | scratch/comparison-budget.ts:146-185 | an attach adds one reading child with nothing written if and only if the coordinator is open, its ledger runs and the child has pipes; a refused child is terminated |
| BudgetIpcParent.ChildLife | scratch/comparison-budget.ts:146-198 | over every run an attached child is written exactly the replies of its answers with a live stdin, in order, up to the first event that ends it, and is terminated exactly if that event terminates it |
| BudgetIpcParent.CloseIsFinal | scratch/comparison-budget.ts:190-198 | close terminates every child it finds, leaves none and stays effective for ever |
| BudgetIpcParent.ClosedAcceptsNobody | scratch/comparison-budget.ts:146-151 | no child joins a closed coordinator |
| BudgetIpcParent.RefusedAttachLeavesChildren | scratch/comparison-budget.ts:146-151 | a concrete run that ends closed with a live child |
| BudgetIpcParent.ClosedWithChildrenExactly | scratch/comparison-budget.ts:146-198 | one step closes a coordinator over live children if and only if it is an attach on an open coordinator with children whose ledger has stopped |
| BudgetIpcParent.ClosedWithChildrenInRun | scratch/comparison-budget.ts:146-198 | in a whole run such a coordinator has a stopped ledger and was never closed by `close` |
| BudgetIpcParent.ClosedWithChildrenRunExactly | scratch/comparison-budget.ts:146-198 | a run passes through a closed coordinator with children if and only if one of its events is an attach on an open coordinator with children and a stopped ledger |
| BudgetIpcParent.IpcCoordinator.Attach | scratch/comparison-budget.ts:146-185 | refused, unpiped or attached, with the new parent state |
| BudgetIpcParent.IpcCoordinator.Detach | scratch/comparison-budget.ts:165-170 | a departed child is taken off the set once, and keeps its process state |
| BudgetIpcParent.IpcCoordinator.OnReply | scratch/comparison-budget.ts:175-180 | an answer is written to a child still attached with a live stdin, and dropped otherwise |
| BudgetIpcParent.IpcCoordinator.Close | scratch/comparison-budget.ts:190-198 | the closing loop over the children it mutates reaches the specified state |
| BillingContract.CalculateCharge | src/shared/schemas/paid-effect.ts:100-117 | usage is refused exactly when the contract does not cover it; a price never exceeds the stated maximum, so the overflow error is never thrown |
| BillingContract.WithinMaximum | src/shared/schemas/paid-effect.ts:70-76 | the rounded-up charge of any covered usage is at most the contract's exact maximum |
| BillingContract.LeastNotBelow | src/shared/schemas/paid-effect.ts:112 | the charge of one dimension is the least whole number of micros not below the exact price |
| BillingContract.SumsMean | src/shared/schemas/paid-effect.ts:105-113 | charge and maximum are sums over the dimensions, at the quantity used and at the limit |
| BillingContract.PricedExactly | src/shared/schemas/paid-effect.ts:103-115 | usage is priced if and only if it names the dimensions of the contract, each within its limit; the price is the overhead and their charges |
| BudgetLedger.NeverOverCeiling | src/db/repositories/qualification-run-budget-repo.ts:329-492 | over every run of operations, replays and refusals: settled, outstanding and reserved amounts together stay within the ceiling, units within every cumulative limit, keys distinct, each row bound to its contract |
| BudgetLedger.EveryRunContinues | src/db/repositories/qualification-run-budget-repo.ts:388-492 | rows are never lost or rebound, no observation is removed or rewritten, released and settled are final, dispatched is never released, and a ledger no longer active admits and dispatches nothing and never holds more |
| BudgetLedger.AdmittedExactly | src/db/repositories/qualification-run-budget-repo.ts:354-371 | a new valid attempt is admitted if and only if its maximum fits the ceiling and its units the cumulative limits, and then holds exactly its maximum |
| BudgetLedger.ReserveReplays | src/db/repositories/qualification-run-budget-repo.ts:347-353 | repeating an accepted reservation is accepted and changes nothing |
| BudgetLedger.SettleReplays | src/db/repositories/qualification-run-budget-repo.ts:407-421 | after an accepted settlement the next authoritative one for its row changes nothing, and is accepted if and only if its hash, which covers the estimated cost, is that of the first |
| BudgetLedger.DriftsExactly | src/db/repositories/qualification-run-budget-repo.ts:423-453 | an authoritative settlement drifts the ledger if and only if the contract does not price its usage at its amount or the usage exceeds the request; the test against the reserved maximum never decides |
| BudgetLedger.DriftHoldsLiabilities | src/db/repositories/qualification-run-budget-repo.ts:244-249 | after a drift nothing is reserved and every dispatched row is still held at its maximum |
| BudgetEffects.EncumbranceMeans | src/db/repositories/qualification-run-budget-repo.ts:135-146 | one row more: a released one holds nothing, one settled on authoritative evidence its actual charge, any other its maximum |
| BudgetEffects.ConsumptionMeans | src/db/repositories/qualification-run-budget-repo.ts:355-366 | one row more counts the units it asked for, unless it is released or of another contract |
| BudgetEffects.DispatchedExactly | src/db/repositories/qualification-run-budget-repo.ts:388-397 | a dispatch is accepted if and only if the ledger is active and a row with this key and hash is reserved; the refusals and their errors |
| BudgetEffects.DispatchEffect | src/db/repositories/qualification-run-budget-repo.ts:392-395 | an accepted dispatch sets that row to dispatched, leaves every other row and what is held as they were |
| BudgetEffects.OutstandingRefuses | src/db/repositories/qualification-run-budget-repo.ts:388-478 | a dispatched or settled row is neither dispatched again nor released, whatever hash or reason is sent |
| BudgetEffects.DispatchedForEver | src/db/repositories/qualification-run-budget-repo.ts:388-492 | over every run after an accepted dispatch the row is dispatched or settled, and every second dispatch and every release of it is refused |
| BudgetEffects.ReleasedExactly | src/db/repositories/qualification-run-budget-repo.ts:465-478 | a release is accepted if and only if a reason is given and the row with this key and hash is reserved, or was released for this reason |
| BudgetEffects.ReleaseEffect | src/db/repositories/qualification-run-budget-repo.ts:472-477 | the released row has that reason, its maximum is free again, nothing else changes |
| BudgetEffects.CloseEffect | src/db/repositories/qualification-run-budget-repo.ts:480-492 | closing an active ledger releases exactly the reserved rows, for the fixed reason; without a reason, or when not active, nothing changes |
| BudgetEffects.ReplayedExactly | src/db/repositories/qualification-run-budget-repo.ts:347-353 | a request whose key is on record changes nothing and is accepted if and only if it is active, in scope, matches its contract and has the recorded hash |
| BudgetEffects.ReservedExactly | src/db/repositories/qualification-run-budget-repo.ts:329-371 | a request with a new key is accepted if and only if it is active, in scope, matches its contract and fits under the ceiling and every cumulative limit |
| BudgetEffects.ReserveEffect | src/db/repositories/qualification-run-budget-repo.ts:368-381 | an accepted new request appends one reserved row with its scope, descriptor, hash and the maximum of its contract |
| BudgetEffects.UnverifiedRefused | src/db/repositories/qualification-run-budget-repo.ts:168-172 | without a contract of the requested id nothing is reserved |
| BudgetEffects.SettledExactly | src/db/repositories/qualification-run-budget-repo.ts:423-453 | an authoritative settlement of a dispatched row is accepted if and only if its source is the contract's, its usage within the request and its charge the contract's price; other figures drift, another source is refused without effect |
| BudgetEffects.SettleEffect | src/db/repositories/qualification-run-budget-repo.ts:441-461 | the settled row stands on that evidence with its observation, its maximum is replaced by the actual charge, nothing else changes |
| BudgetEffects.UnknownEffect | src/db/repositories/qualification-run-budget-repo.ts:399-421 | a settlement without a known charge is accepted exactly on a dispatched row, which stays dispatched with one observation |
| BudgetEffects.DriftEffect | src/db/repositories/qualification-run-budget-repo.ts:244-249 | a drift marks an active ledger and releases exactly the reserved rows, for the fixed reason |
| BudgetRepo.Repo.CheckedSum | src/db/repositories/qualification-run-budget-repo.ts:135-146 | the three counters are the sums of their kinds of row and add up to what the ledger holds |
| BudgetRepo.Repo.FitsUnits | src/db/repositories/qualification-run-budget-repo.ts:355-366 | the two nested loops decide exactly whether the request fits every cumulative limit |
| BudgetRepo.Repo.Reserve | src/db/repositories/qualification-run-budget-repo.ts:329-381 | refines the ledger's reserve, error by error, and keeps the invariant |
| BudgetRepo.Repo.MarkDispatched | src/db/repositories/qualification-run-budget-repo.ts:388-397 | refines the ledger's dispatch and keeps the invariant |
| BudgetRepo.Repo.Settle | src/db/repositories/qualification-run-budget-repo.ts:399-463 | refines the ledger's settle, drift and recorded observations included, and keeps the invariant |
| BudgetRepo.Repo.ReleaseUndispatched | src/db/repositories/qualification-run-budget-repo.ts:465-478 | refines the ledger's release and keeps the invariant |
| BudgetRepo.Repo.Close | src/db/repositories/qualification-run-budget-repo.ts:480-492 | refines the ledger's close and keeps the invariant |
| BudgetRepo.Repo.TakeSnapshot | src/db/repositories/qualification-run-budget-repo.ts:494-514 | a snapshot never finds the ceiling broken, and available plus held is the ceiling |
| CostReconciliation.Reconcile | scratch/comparison-report.ts:90-122 | refuses if and only if two aliases of one attempt disagree anywhere, although it compares with the first only |
| CostReconciliation.ReconciledExactly | scratch/comparison-report.ts:105-119 | `reconciled` holds if and only if the input is non-empty and every effect is known, null operands included |
| CostReconciliation.OrderIrrelevant | scratch/comparison-report.ts:90-122 | for any permutation of the input: the same refusal, the same counts and totals, the same charges with the same beneficiaries |
| CostReconciliation.ReconcileIdempotent | scratch/comparison-report.ts:90-122 | reconciling a reconciliation's own rows returns the same reconciliation |
| CostReconciliation.AttemptsMean | scratch/comparison-report.ts:91-101 | the rows are exactly the distinct attempts of the input, each represented by its first alias |
| CostTotals.RefusedExactly | scratch/comparison-report.ts:94-98 | the input is refused if and only if two effects of one attempt differ in amount, kind or logical effect |
| CostTotals.RowsExactly | scratch/comparison-report.ts:90-101 | one row for each attempt in the order of first occurrence: the first effect, with the sorted, distinct beneficiaries of all effects of the attempt |
| CostTotals.KindTotalsExactly | scratch/comparison-report.ts:104-117 | the billed, reported, estimated and reserved totals count each attempt of their kind once over the raw effects; null if there is none or one has no amount |
| CostTotals.AttributionExactly | scratch/comparison-report.ts:102-113 | the attributed total is over the attempts some effect names a beneficiary for, the unallocated one over the others |
| CostTotals.PricesExist | scratch/comparison-report.ts:94-98 | every input that is not refused has one price for each attempt, so the totals above are well defined |
| CostTotals.CountsExactly | scratch/comparison-report.ts:105-118 | the two counts are the numbers of attempts and of unknown attempts among the raw effects |
| CostTotals.FlagExactly | scratch/comparison-report.ts:105-119 | `reconciled` if and only if there is an effect and no attempt is unknown |
| IdOrder.BelowExactly | scratch/comparison-report.ts:99 | the order of the sort: at the first difference the smaller code unit, and a proper prefix, comes first |
| CostAllocation.AllocateExact | scratch/comparison-report.ts:125-132 | shares add up to the amount, differ by at most one and give the remainder to the first; out-of-range amounts are refused |
| CostAllocation.AllocateItems | scratch/comparison-report.ts:127-131 | the shares go to the distinct beneficiaries in increasing order, the one increasing list of these ids |
| CostAllocation.AllocateIgnoresOrder | scratch/comparison-report.ts:127 | order and repeats of the id list do not matter |
| CostAllocation.AddShares | scratch/comparison-report.ts:166-169 | the inner loop adds each item its shares, and a null entry stays null |
| CostAllocation.AbsorbUnknown | scratch/comparison-report.ts:162-165 | a charge of unknown amount turns exactly its beneficiaries' entries to null |
| CostAllocation.Accumulate | scratch/comparison-report.ts:160-170 | throws exactly on an amount out of range; an entry exists exactly for named items, is null exactly when some unknown charge names it, and otherwise is the sum of its shares |
| CostAllocation.GiftExactly | scratch/comparison-report.ts:125-132 | the k-th beneficiary in increasing order gets the even share, and one micro more while the remainder lasts |
| CostAllocation.EntriesExactly | scratch/comparison-report.ts:160-170 | one entry for each item some charge names, null if and only if a charge of unknown amount names it, else the sum of its gifts |
| CostAllocation.GiftsSum | scratch/comparison-report.ts:166-169 | the sum behind an entry grows by what each further charge gives, nothing if it is for others or unknown |
| CostAllocation.RangeExactly | scratch/comparison-report.ts:126 | accumulation goes through if and only if every known amount lies between 0 and 9007199254740991 |
| CostAllocation.AllocationBalances | scratch/comparison-report.ts:160-170 | unknown amounts or not: the known entries and the shares absorbed by null entries add up to exactly the known charges that name a beneficiary |
| CostAllocation.AllocationConserves | scratch/comparison-report.ts:160-170 | with all amounts known the entries add up to the charges that name a beneficiary |
| CostAllocation.EndToEndConservation | scratch/comparison-report.ts:90-170 | from raw effects: the entries add up to the attributed total of the reconciliation |
| CostAllocation.AllocationOrderIrrelevant | scratch/comparison-report.ts:160-170 | the accumulated map does not depend on the order of the charges |
| CostAllocation.EffectsOrderIrrelevant | scratch/comparison-report.ts:90-170 | from permuted raw effects: the same refusal, the same range error and the same accumulated map |
| RowProjection.ProjectRow | scratch/comparison-report.ts:179-244 | one row, and it counts as imported exactly when it is failed, blocked or pipeline_pending |
| RowProjection.ProjectRows | scratch/comparison-report.ts:173-256 | every input row is in exactly one count; source rows = imported + duplicate + missing + other; no row is unresolved_source |
| RowProjection.Project | scratch/comparison-report.ts:153-261 | throws exactly on conflicting aliases or an amount out of range; otherwise all rows are accounted for and eligible rows are charged no more than the known charges hand out plus the own costs of their items |
| RowProjection.JoinExactly | scratch/comparison-report.ts:179-183 | a row is joined if and only if it is not marked duplicate, its UPC has an item and no earlier row claimed that UPC |
| RowProjection.SeenIffClaimed | scratch/comparison-report.ts:181-182 | a UPC has been seen exactly when an earlier eligible row carried it |
| RowProjection.DuplicatePointsAtClaim | scratch/comparison-report.ts:226-234 | a repeated row points at the row that claimed its UPC |
| RowProjection.JoinedOnce | scratch/comparison-report.ts:181-183 | no item is joined twice after a row that is neither invalid nor skipped |
| RowProjection.InvalidRowsShareACharge | scratch/comparison-report.ts:182-242 | two rows marked invalid are both charged for one item |
| RowProjection.SharedExactly | scratch/comparison-report.ts:179-183 | two rows are joined with one item if and only if they have the same UPC, it has an item, neither is marked duplicate and no row before the later one claims it |
| RowDispositions.DispositionExactly | scratch/comparison-report.ts:179-193 | when a row is invalid, skipped, other, duplicate, missing or imported, from the marks and UPCs of the inputs and the items alone |
| RowDispositions.StopExactly | scratch/comparison-report.ts:194-213 | the stop of an imported row: a given preparation stop, or the terminal one of pending or running work, else each stop if and only if the item's fields call for it |
| RowDispositions.ImportedExactly | scratch/comparison-report.ts:200-224 | an imported row is failed, pending or blocked exactly as its item's status, stage and stage status and the given stops say |
| RowDispositions.CountsExactly | scratch/comparison-report.ts:173-256 | the failed, pending and blocked counts of a report are the numbers of inputs whose items call for them |
| RowDispositions.CostExactly | scratch/comparison-report.ts:183-242 | a row that is no repeat carries the identity of the first item with its UPC, and its own cost or what the accounts hold |
| RowDispositions.NoCostExactly | scratch/comparison-report.ts:183-242 | a repeat, and a row without an item, carries neither |
| RowDispositions.PrimaryExactly | scratch/comparison-report.ts:226-234 | the primary row of a repeat is the one it names, else the row that took its UPC; no other row has one |
| RowProjection.ImportedSharesWithInvalid | scratch/comparison-report.ts:181-242 | an imported row is charged for the item of an invalid row before it |
| RowProjection.NeverOvercharged | scratch/comparison-report.ts:160-242 | eligible rows together are charged at most what the known charges hand out plus the own costs of the items they are joined with; with every amount known the former is the attributed total |
| WilsonInterval.RootsExactly | scripts/benchmark-official-page-identity.ts:38-41 | the unclamped end points are exactly the two solutions of (k/n - p)^2 = z^2 p (1 - p) / n |
| WilsonInterval.ClampsAreIdle | scripts/benchmark-official-page-identity.ts:42-46 | 0 <= lower <= k/n <= upper <= 1, so no clamp changes anything |
| WilsonInterval.LowerMonotone | scripts/benchmark-official-page-identity.ts:34-47 | the lower end point does not fall when the successes rise |
| WilsonInterval.CenterExactly | scripts/benchmark-official-page-identity.ts:34-47 | without observations every figure is 1, else the center lies midway between the end points |
| ActivationFloor.ComputeConfusionMatrix | scripts/benchmark-official-page-identity.ts:192-212 | for an evaluator that sees the whole record, each cell is the number of records of its kind and the cells add up to the records |
| ActivationFloor.CollectStrata | scripts/benchmark-official-page-identity.ts:293-328 | one stratum for each name met, with every counter the count over its records |
| ActivationFloor.StrataSumToMatrix | scripts/benchmark-official-page-identity.ts:293-328 | the counters of the strata add up to the cells of the matrices |
| ActivationFloor.NeedsInputIsRejected | scripts/benchmark-official-page-identity.ts:334-335 | the records needing input are the true and the false negatives |
| ActivationFloor.MatrixExactly | scripts/benchmark-official-page-identity.ts:192-212 | the four cells are the numbers of records expected and selected, selected only, neither, and expected only |
| ActivationFloor.StratumExactly | scripts/benchmark-official-page-identity.ts:293-328 | the counters of a stratum are the numbers of its own records of each kind |
| ActivationFloor.FloorExactly | scripts/benchmark-official-page-identity.ts:340-344 | the gate passes if and only if fp = 0 and either tp = fn = 0, or tp >= 73 and 100 tp >= 99 (tp + fn) |
| ActivationFloor.RunBenchmark | scripts/benchmark-official-page-identity.ts:289-344 | both matrices are the counts over the records, the delta is the difference of the records each evaluator rejects, and the verdict in integers |
| Gtin.CalculateCheckDigit | scripts/generate-gold-benchmark.ts:96-104 | the digit returned is the one and only digit that completes the body |
| Gtin.ValidateGtin | scripts/generate-gold-benchmark.ts:79-94 | accepts exactly the codes whose digits have an accepted length and check out |
| Gtin.CheckDigitUnique | scripts/generate-gold-benchmark.ts:96-104 | for a body of any length exactly one check digit validates |
| Gtin.SubstitutionDetected | scripts/generate-gold-benchmark.ts:79-94 | every change of a single digit is detected |
| Gtin.TranspositionDetected | scripts/generate-gold-benchmark.ts:79-94 | an exchange of neighbours is undetected if and only if they are equal or differ by five |
| Gtin.PaddingKeepsGtin | scripts/generate-gold-benchmark.ts:81-94 | a leading zero keeps validity between accepted lengths |
| Gtin.CorruptedNeverValid | scripts/generate-gold-benchmark.ts:988-991 | the corrupted check digit of the fixtures is never valid |
| Gtin.MakeGtin | scripts/generate-gold-benchmark.ts:106-122 | succeeds exactly when the body has its length, and then yields a valid code with that body |
| Gtin.SequenceRecovered | scripts/generate-gold-benchmark.ts:106-122 | with one prefix, different sequence numbers give different codes |
| Gtin.MakersSucceed | scripts/generate-gold-benchmark.ts:106-122 | a six-digit prefix has a GTIN-12 body, a seven-digit one a GTIN-13 body, if and only if the sequence number is below 100000 |
| Gtin.MadeMeans | scripts/generate-gold-benchmark.ts:107-116 | the body is the prefix and the five decimal digits of the sequence number |
| Gtin.BodyLength | scripts/generate-gold-benchmark.ts:107-116 | a sequence number takes five digits, or as many more as it has |
| Gtin.EightMeans | scripts/generate-gold-benchmark.ts:79-94 | the condition of an eight-digit code in its digits |
| Gtin.FourteenMeans | scripts/generate-gold-benchmark.ts:79-94 | the condition of a fourteen-digit code in its digits |
| Gtin.DigitsOfMeans | scripts/generate-gold-benchmark.ts:80 | digits are kept in order and every other character is dropped |
| Gtin.OtherLengths | scripts/generate-gold-benchmark.ts:81-83 | a code of any other length than 8, 12, 13 or 14 digits is refused |
| Gtin.ValMeans | scripts/generate-gold-benchmark.ts:85-90 | the value of a digit character is its place in 0 to 9 |
| SourceWindow.SharedWindow.Reserve | scripts/lib/source-request-window.ts:449-486 | the next contiguous number, refused exactly at the allocation |
| SourceWindow.SharedWindow.Record | scripts/lib/source-request-window.ts:493-532 | an outcome only for a reserved number, and only once |
| SourceWindow.ParseInvocationCap | scripts/lib/source-request-window.ts:309-329 | accepted exactly within what is left of the window, which is also the default, and then the cap is the number asked for |
| SourceWindow.NeverOverspent | scripts/lib/source-request-window.ts:449-532 | over every run: within the allocation, no refund, no receipt rewritten |
| SourceWindow.ReservedExactly | scripts/lib/source-request-window.ts:449-486 | over every run the window reserves its requests in order, as many as there is room for |
| SourceWindow.WorkersShareTheWindow | scripts/lib/source-request-window.ts:449-486 | however workers interleave, what they spent adds up to the reservations and stays within the allocation |
| LeadFetch.Runner.Reserve | scripts/fetch-f1-page-leads.ts:228-247 | the gates in their order; a refused hop spends nothing and leaves the window alone; past the gates the window takes what others reserve and this request, and refuses it only when full |
| LeadFetch.Runner.Answer | scripts/fetch-f1-page-leads.ts:248-296 | the receipt is what the network answered; a redirect is followed only over https on one site; a denial, and nothing else, shuts the host out; every other answer throws, delivers a row or fails for its one reason |
| LeadFetch.Runner.FetchLeadPage | scripts/fetch-f1-page-leads.ts:204-299 | an excluded page spends nothing; else the hops are a chain of followed redirects from the curated URL that ends only at five hops, at a request a gate or the full window refuses, or at an answer not followed, and the page throws, is kept or fails with the reason of that end; under the worker's name the window gains one reservation for each hop and no other, and outcomes are written for these hops and no others, for all of them unless the last throws |
| LeadFetch.OneEnding | scripts/fetch-f1-page-leads.ts:248-296 | every answer is followed, throws, delivers or fails, exactly one of these, and for exactly one reason |
| LeadFetch.DenialExactly | scripts/fetch-f1-page-leads.ts:255-259 | a host is denied if and only if it answered 401, 403, 429 or 451, and the receipt names no final URL |
| LeadFetch.RedirectExactly | scripts/fetch-f1-page-leads.ts:260-272 | a redirect is followed if and only if its location parses to an https URL of the same site; its receipts and its failures |
| LeadFetch.AnswerExactly | scripts/fetch-f1-page-leads.ts:250-296 | what no transport, a page and any other status lead to, with their receipts |
| LeadFetch.RefusalExactly | scripts/fetch-f1-page-leads.ts:228-237 | no request beyond the cap, to a URL the policy refuses or to a site that denied an earlier request, in this order |
| LeadFetch.FiveHops | scripts/fetch-f1-page-leads.ts:227-298 | at most five requests for a page; the hop limit is its ending if and only if the fifth answer is a redirect that may be followed |
| LeadFetch.EndsOnce | scripts/fetch-f1-page-leads.ts:204-299 | the hops of a page determine its outcome, reason included |
| LeadFetch.KeptExactly | scripts/fetch-f1-page-leads.ts:273-296 | a page is kept if and only if its last hop proves an admissible row, which it then holds, on the lead's own site; it throws if and only if the last answer redirects to a location that does not parse |
| LeadFetch.ChainStaysOnSite | scripts/fetch-f1-page-leads.ts:266-271 | every hop of a chain is on the lead's site |
| LeadDomains.AlwaysConsistent | scripts/fetch-f1-page-leads.ts:502-541 | over every sequence of outcomes: kept equals proofPass, nothing kept means all attempts failed in a row, at most 30 attempts, at most five hops each |
| LeadDomains.AbandonedIsUnreachable | scripts/fetch-f1-page-leads.ts:537-549 | a domain that kept nothing has stopped by 15 attempts, so `abandoned-zero-kept` is never given; the sub-cap and the proof-wall statuses exactly when, for the pilot domain too |
| LeadDomains.PilotPausesExactly | scripts/fetch-f1-page-leads.ts:502-535 | the pilot pauses if and only if nothing passed and either 15 attempts were made or the last lead of the used-up domain was attempted |
| LeadDomains.CountersExactly | scripts/fetch-f1-page-leads.ts:502-541 | the counters are the numbers of attempts, skips, passes and misses since the last pass |
| LeadDomains.VerdictsExactly | scripts/fetch-f1-page-leads.ts:515-549 | the closing status from the outcomes alone: fifteen attempts or a used-up domain without a pass for the pilot, fifteen misses in a row, thirty attempts |
| LeadDomains.GoesOnExactly | scripts/fetch-f1-page-leads.ts:476-480 | when the lead loop takes another lead |
| LeadDomains.ExhaustedPilotGoesOn | scripts/fetch-f1-page-leads.ts:502-535 | a used-up pilot domain with no pass that does not pause the block |
| LeadDomains.DomainState.Count | scripts/fetch-f1-page-leads.ts:502-541 | the counters, the pilot verdict and the proof wall after one page |
| LeadDomains.RunBlock | scripts/fetch-f1-page-leads.ts:474-552 | a true log of the block, or a throw after an unparseable redirect: `perLead` holds the leads tried in order, each with the outcome its own hops determine, the hops together those of the run; every domain begun ran to its end unless the cap cut the last one short, later ones are untouched only after a pilot pause, in a pilot-only run or at the cap; spend is the sum over domains and log, within the cap, and all the window gains under the worker\'s name; the kept rows are as many as the domains counted, each proved by the last hop of its chain; pilot and cap statuses exactly when |
| LeadDomains.FrontTotals | scripts/fetch-f1-page-leads.ts:509-514 | what the domains counted as spent and kept is what the log of their pages says |
| LeadDomains.KeptRowsProved | scripts/fetch-f1-page-leads.ts:476-514 | every kept row was proved by the last hop of its lead's chain, on the lead's site |
| LeadDomains.LogMeans | scripts/fetch-f1-page-leads.ts:502-514 | a page counts as a pass if and only if it is kept, and then its row joins the kept rows |
| LeadDomains.FetchRun | scripts/fetch-f1-page-leads.ts:468-552 | the cap is min(invocation cap, 120), and the window gains under the worker's name, which nobody else uses, exactly the spent numbers, at most the cap, whatever the network does; outcomes change only for hops of the run; the run then is as `RunBlock` says |
| UrlIdentity.KeyIsIdentity | scripts/collect-jev-v3-sources.ts:168-193 | for two URLs of one kind, with an authority or opaque, equal keys if and only if the pairwise test holds |
| UrlIdentity.KeyExactly | scripts/collect-jev-v3-sources.ts:168-193 | for any two URLs, equal keys if and only if they are the same product or one is opaque and spells the other, a page; never both |
| UrlIdentity.OpaqueUrlCollides | scripts/collect-jev-v3-sources.ts:186-193 | an opaque URL shares the key of a page it is not |
| UrlIdentity.OpaqueCollidesExactly | scripts/collect-jev-v3-sources.ts:168-193 | whatever hosts and paths the parser accepts for pages: an opaque path shares the key of some page if and only if it starts with a site root and one of four pages, with or without `www.` and a last slash, exists |
| UrlIdentity.RootExactly | scripts/collect-jev-v3-sources.ts:145-147 | a host has this site root if and only if it is, letter case aside, the root or the root with one `www.` in front |
| UrlIdentity.LowerMeans | scripts/collect-jev-v3-sources.ts:145-147 | capital letters become small ones and every other character stays |
| UrlIdentity.SameProductExactly | scripts/collect-jev-v3-sources.ts:168-179 | two URLs are the same product if and only if they spell one host and one path, a last slash aside |
| UrlIdentity.SpellingsAgree | scripts/collect-jev-v3-sources.ts:168-193 | apex and `www.`, in any letter case, with or without a last slash: one product under one key |
| ExclusionBank.Exclusion.LoadBank | scripts/collect-jev-v3-sources.ts:402-441 | throws exactly on a malformed bank; the counts are the growth of the two sets |
| ExclusionBank.LoadPublicExclusion | scripts/collect-jev-v3-sources.ts:463-496 | the counts add up to the sizes of the sets, and a missing or private stage bank is refused |
| ExclusionBank.BankExactly | scripts/collect-jev-v3-sources.ts:402-441 | a bank loads if and only if it is absent or every row names a family and a URL that parses |
| ExclusionBank.StageExactly | scripts/collect-jev-v3-sources.ts:463-496 | a stage bank must not look private and must exist |
| ExclusionBank.SealedRowExcludes | scripts/collect-jev-v3-sources.ts:186-204 | a row of any loaded bank shuts out its family and every spelling of its page |
| ExclusionBank.PriorsAreRows | scripts/collect-jev-v3-sources.ts:402-441 | every prior of the public banks is a row of one of them |
| ExclusionBank.StagePriorsAreRows | scripts/collect-jev-v3-sources.ts:463-496 | every prior of the stage banks is a row of one of them |
| ExclusionBank.ExcludedExactly | scripts/collect-jev-v3-sources.ts:201-204 | a URL is excluded if and only if some loaded row is the same product under the pairwise test or collides with it, opaque rows included |
| ExclusionBank.ExcludedPagesExactly | scripts/collect-jev-v3-sources.ts:201-204 | among pages, a URL is excluded if and only if some loaded row is the same product |
| SitemapCrawl.Crawler.Crawl | scripts/collect-jev-v3-sources.ts:577-688 | terminates although it enqueues; the URLs, candidates and cohorts are exactly those the fetched pages add up to; URLs are fetched in the order queued, each once, from the XML entry on, and the queue is the rest; it stops only at an empty queue, 20 URLs or a fetch that failed for good |
| SitemapCrawl.Crawler.Collect | scripts/collect-jev-v3-sources.ts:551-705 | at most 20 fetches of distinct URLs of the seed's site; returned are exactly the URLs the fetched pages add up to and the dense cohorts, each once, at most 1000, all of that site, every prequalified one among them |
| SitemapPages.FinishedMeans | scripts/collect-jev-v3-sources.ts:577-688 | of a finished crawl: everything queued was visited or is still queued, the PHP entry too if the XML entry was missed, and every page fetched is harvested up to the caps, the listings of a leaf without product links included |
| SitemapPages.StepsMean | scripts/collect-jev-v3-sources.ts:577-688 | fetch by fetch, the state of the crawl is the function `Collected` of the list of pages fetched |
| SitemapPages.CohortsMean | scripts/collect-jev-v3-sources.ts:661-674 | the cohort of a segment holds exactly its members among all leaf sitemaps fetched, in order |
| SitemapPages.DensestSorts | scripts/collect-jev-v3-sources.ts:692-694 | largest first: a permutation of the segments, sizes not increasing, equal sizes in the order first met |
| SitemapEffects.ProductsCollected | scripts/collect-jev-v3-sources.ts:608-652 | every on-site product link of a fetched page, and every on-site URL of a leaf sitemap, is collected while there are fewer than 600 |
| SitemapEffects.DirectoriesFollowed | scripts/collect-jev-v3-sources.ts:616-635 | a directory link below the floor waits to be visited if a PHP sitemap shows it, while fewer than 20 URLs were seen, and else is a candidate while there are fewer than 400 |
| SitemapEffects.ChildrenFollowed | scripts/collect-jev-v3-sources.ts:639-644 | the first fifteen XML files of a sitemap index that are on the site are visited or wait |
| SitemapEffects.ListingsFollowed | scripts/collect-jev-v3-sources.ts:675-686 | a leaf sitemap without a product link has its listings visited instead, while fewer than 20 URLs were seen |
| SitemapEffects.ListsExactly | scripts/collect-jev-v3-sources.ts:577-652 | at most 20 distinct fetches, 600 URLs and 400 candidates, every one of them offered by a page that was fetched |
| SitemapEffects.CohortExactly | scripts/collect-jev-v3-sources.ts:661-674 | a cohort is the sub-floor URLs of the fetched leaf sitemaps under one first path segment |
| SitemapEffects.PoolExactly | scripts/collect-jev-v3-sources.ts:692-702 | the links of the cohorts with at least 200 join the candidates, and nothing else does, until URLs and candidates are a thousand |
| SitemapEffects.DedupeExactly | scripts/collect-jev-v3-sources.ts:703-705 | of repeated links the first stays in its place |
| SitemapEffects.KeepExactly | scripts/collect-jev-v3-sources.ts:608-686 | the links a test keeps stay in their order |
| SitemapCrawl.Crawler.HarvestAnchors | scripts/collect-jev-v3-sources.ts:608-635 | what a page of links adds to the URLs, the queue and the candidates, under the caps |
| SitemapCrawl.Crawler.TakeUrls | scripts/collect-jev-v3-sources.ts:646-652 | the on-site URLs up to the cap, with the number above the floor |
| SitemapCrawl.Crawler.GroupCohorts | scripts/collect-jev-v3-sources.ts:661-674 | every sub-floor URL joins the cohort of its first path segment |
| SitemapCrawl.Crawler.AdmitCohorts | scripts/collect-jev-v3-sources.ts:692-702 | the dense cohorts, in the order `SitemapPages.DensestSorts` describes, up to the pool's limit |
| FamilySplit.CollectPages | scripts/collect-jev-v3-sources.ts:1003-1014 | the rows are, in order, those the first n queue entries yield, n being the first entry at which the queue ends, the budget is spent or 250 rows are there; none is sealed before or after redirects, and with budget left none is missing |
| FamilySplit.CollectFeed | scripts/collect-jev-v3-sources.ts:514-541 | the rows are exactly those of the first products of their handles that pass the gate and have something to show, in order, one a handle, with the exact count of products turned away |
| FamilySplit.AdmittedIsNew | scripts/collect-jev-v3-sources.ts:201-204 | an admitted row is no sealed product under any spelling |
| FamilyEffects.YieldsExactly | scripts/collect-jev-v3-sources.ts:800-811 | a page yields its proved row, under the queued URL, if and only if the gate passes it before the fetch and after it |
| FamilyEffects.YieldedExactly | scripts/collect-jev-v3-sources.ts:1010-1014 | one queue entry more adds its row, if it yields one, at the end |
| FamilyEffects.TurnedAwayExactly | scripts/collect-jev-v3-sources.ts:514-541 | the feed's exclusion counter is the number of first products of a handle that the gate excludes |
| FamilySplit.GroupByFamily | scripts/collect-jev-v3-sources.ts:1019-1028 | the groups partition the rows by key, in order |
| FamilySplit.DropKnown | scripts/collect-jev-v3-sources.ts:1030-1044 | each row is kept, dropped as prior family or dropped as near duplicate, and both counters are exact |
| FamilySplit.Split | scripts/collect-jev-v3-sources.ts:1047-1073 | throws exactly when a kept row fails the schema |
| FamilySplit.FamilyLocked | scripts/collect-jev-v3-sources.ts:1054-1071 | no family id is on both sides |
| FamilySplit.OnePrimaryEach | scripts/collect-jev-v3-sources.ts:1067-1071 | each development family has exactly one primary row |
| FamilySplit.SplitConserves | scripts/collect-jev-v3-sources.ts:1051-1073 | the split neither loses nor repeats a row |
| FamilyEffects.OfKeyExactly | scripts/collect-jev-v3-sources.ts:1019-1028 | the rows of a family are the raw rows of its key, in their order |
| FamilyEffects.KeptExactly | scripts/collect-jev-v3-sources.ts:1032-1044 | a family is kept if and only if it is that of a raw row and neither sealed nor, by its first row, like a sealed one |
| FamilyEffects.DroppedExactly | scripts/collect-jev-v3-sources.ts:1034-1041 | the two exclusion counters are the numbers of raw rows of sealed families and of families like sealed ones |
| FamilyEffects.BanksExactly | scripts/collect-jev-v3-sources.ts:1051-1073 | a row is primary if and only if it is the first by URL of a development family, supplemental if it is another of one, held out if its family is a holdout one |
| FamilySplit.Partition | scripts/collect-jev-v3-sources.ts:1018-1073 | succeeds if and only if every row whose family is neither sealed nor a near duplicate passes the schema; both exclusion counters exact; then raw rows = prior-family + near-duplicate + primary + supplemental + holdout, families locked, nothing banked sealed |
| ProfileDedupe.MergedPartitions | scripts/build-bay-state-v4-release.ts:364-389 | one definition per fingerprint, holding every profile with that fingerprint once, in order |
| ProfileDedupe.DefinitionExactly | scripts/build-bay-state-v4-release.ts:364-389 | the definition of a fingerprint has the attributes of the first profile with it, under the name of their sorted ids, and all profiles with it as sources |
| ProfileDedupe.SourcesExactly | scripts/build-bay-state-v4-release.ts:364-389 | one profile more joins the sources of a definition if and only if it has its fingerprint |
| ProfileDedupe.AssignedExactly | scripts/build-bay-state-v4-release.ts:364-389 | every profile gets the name the first profile with its fingerprint gives |
| ProfileDedupe.Dedupe | scripts/build-bay-state-v4-release.ts:364-389 | the merging loop and the id map |
| ProfileDedupe.FingerprintCache.Fingerprint | scripts/build-bay-state-v4-release.ts:643-675 | the cached value for a known key, else the fresh one, and the new cache |
| ProfileDedupe.BuildEntries | scripts/build-bay-state-v4-release.ts:677-704 | each published fingerprint is that of the first definition with the same cache key |
| ProfileDedupe.GuardExactly | scripts/build-bay-state-v4-release.ts:643-732 | the guard passes if and only if profiles sharing an id share a fingerprint; then ids and fingerprints are one to one and every cached fingerprint is the one computed afresh |
| ProfileDedupe.SortingKeepsFirst | scripts/build-bay-state-v4-release.ts:704-709 | a stable sort by id does not change which entry is found under an id |
| ProfileDedupe.BuildProfiles | scripts/build-bay-state-v4-release.ts:364-732 | ships exactly when shared ids agree, and then publishes every profile's own fingerprint |
| Shuffle.ShuffleCopy | scripts/sample-expansion-pool.ts:54-61 | the loop over an array copy computes the specified shuffle and leaves its argument alone |
| Shuffle.ShuffledPermutes | scripts/sample-expansion-pool.ts:54-61 | a permutation for every generator and every state |
| Shuffle.ChoicesDetermineOrder | scripts/sample-expansion-pool.ts:56-59 | different choices give different orders |
| Shuffle.EveryOrderIsReached | scripts/sample-expansion-pool.ts:56-59 | every order is the result of some choices |
| Shuffle.Pick | scripts/sample-expansion-pool.ts:57 | the index drawn is in range for every word |
| Shuffle.PickExactly | scripts/sample-expansion-pool.ts:57 | the index is the whole part of the drawn fraction of the places |
| Shuffle.TurnExactly | scripts/sample-expansion-pool.ts:56-59 | one turn: the last open place swaps with the one drawn from the next state, and the rest is shuffled below it |
| Shuffle.MixFirst | scripts/sample-expansion-pool.ts:46-53 | the first state and word from the script's seed |
| Shuffle.MixSecond | scripts/sample-expansion-pool.ts:46-53 | the second state and word |
| Shuffle.MixThird | scripts/sample-expansion-pool.ts:46-53 | the third state and word |
| PoolSampler.Screen | scripts/sample-expansion-pool.ts:150-170 | the candidates are the first admissible row of each family, in row order, none exposed; every row counted under its verdict, every admissible family represented |
| PoolSampler.FamiliesSeen | scripts/sample-expansion-pool.ts:150-170 | the families of the candidates are exactly those of the admissible rows |
| PoolSampler.ScreeningIsDistinct | scripts/sample-expansion-pool.ts:150-170 | rows with distinct SKUs give candidates with distinct SKUs |
| PoolSampler.TakeUpTo | scripts/sample-expansion-pool.ts:185-192 | a list of new candidates is taken from the front up to the remaining quota |
| PoolSampler.PickThin | scripts/sample-expansion-pool.ts:194-199 | with distinct SKUs exactly min(thin candidates, 40) are picked, all thin |
| PoolSampler.FillToQuota | scripts/sample-expansion-pool.ts:185-206 | the picks before stay in front; with distinct SKUs the stratum ends at max(picks before, min(supply, quota)) and the others are unchanged |
| PoolSampler.Sample | scripts/sample-expansion-pool.ts:183-206 | distinct SKUs from the pool, the thin picks first and all thin; with distinct pool SKUs min(thin candidates, 40) of them, and every stratum ends at max(thin picks, min(candidates, quota)) |
| PoolSampler.SampleIsClean | scripts/sample-expansion-pool.ts:150-206 | the sample repeats no family and shows nothing exposed |
| PoolSampler.BuildPool | scripts/sample-expansion-pool.ts:42-206 | from store rows with the script's generator and seed: the candidates are the first admissible rows of their families, nothing exposed is picked, no family or SKU twice, with distinct row SKUs the strata are filled as `Filled` states, and the picks, in order, are those the generator makes from the seed (`SampleOf`) |
| PoolSampler.JudgeExactly | scripts/sample-expansion-pool.ts:150-170 | the verdict over one row: unparsed, exposed SKU, exposed identity or admitted, in values |
| PoolSampler.ScreeningExactly | scripts/sample-expansion-pool.ts:150-170 | one row more joins the pool if and only if it parses, is not exposed and its family is new to the pool |
| PoolSampler.FilledExactly | scripts/sample-expansion-pool.ts:172-206 | a filled stratum in numbers: 24 candidates, 60 of the unmapped ones, or all there are, unless the thin picks are more |
| PoolSampler.ThinExactly | scripts/sample-expansion-pool.ts:175-199 | the thin picks in numbers: 40, or all there are |
| AutoAcceptRepair.RepairsExactly | scripts/repair-system-auto-accept.ts:93-125 | row by row what one run changes in all tables, and that nothing else changes |
| RepairEffects.SelectedExactly | scripts/repair-system-auto-accept.ts:93-125 | which decisions, runs, items and proposals are affected, in the fields of the rows |
| RepairEffects.PlanExactly | scripts/repair-system-auto-accept.ts:93-125 | the three lists of a plan hold exactly those decisions, dependents and items |
| RepairEffects.ItemsReturn | scripts/repair-system-auto-accept.ts:228-231 | an affected item in promotion ends at stage `review`, status `pending` and the given time; every other item is unchanged |
| RepairEffects.ReviewsInvalidate | src/db/repositories/onboarding-review-repo.ts:170-180 | a live review of an affected item gets time and reason, loses its approval, and every other review is unchanged |
| RepairEffects.ProposalsStale | scripts/repair-system-auto-accept.ts:201-216 | the accepted and the dependent proposals are `stale` with the reason and keep all other fields; no other proposal changes |
| RepairEffects.DecisionsSuperseded | scripts/repair-system-auto-accept.ts:196-221 | the accepted decisions and the live ones on dependent proposals are superseded now; no other decision changes |
| RepairEffects.EventsLogged | scripts/repair-system-auto-accept.ts:205-210 | the log gains one entry for each accepted decision, with its ids, workspace and time, and no other |
| RepairEffects.InvalidatedNumber | scripts/repair-system-auto-accept.ts:224-226 | the count of invalidated reviews is the number of affected items with a live one |
| AutoAcceptRepair.NothingIsLeft | scripts/repair-system-auto-accept.ts:194-234 | afterwards no target, no open dependent in an affected run, no affected item in promotion, no review to invalidate |
| AutoAcceptRepair.SecondRunIsIdle | scripts/repair-system-auto-accept.ts:193-234 | a second run selects nothing and changes nothing |
| AutoAcceptRepair.ConcurrentRunIsIdle | scripts/repair-system-auto-accept.ts:195-200 | of two runs that selected at the same time the second transaction changes and logs nothing |
| AutoAcceptRepair.TimestampsOnlySet | scripts/repair-system-auto-accept.ts:196-222 | supersession times go only from null to set |
| AutoAcceptRepair.OneEventEach | scripts/repair-system-auto-accept.ts:205-210 | each target gets exactly one history event, every other decision none |
| AutoAcceptRepair.TargetsApplied | scripts/repair-system-auto-accept.ts:195-211 | the first loop, for a selection that may be out of date: decisions and log |
| AutoAcceptRepair.Store.Transact | scripts/repair-system-auto-accept.ts:194-234 | the three loops compute the specified transaction and the count of invalidated reviews |
| AutoAcceptRepair.Store.Repair | scripts/repair-system-auto-accept.ts:93-234 | selects exactly the targets, dependents and items; a dry run changes nothing; all six metrics are exact |
| AutoAcceptRepair.Store.MarkReviewInvalidated | src/db/repositories/onboarding-review-repo.ts:170-180 | true exactly when a live review was invalidated |

## Left out

- Process spawning, stdio framing, SQLite handles, locks, backups, file writes, modes, symlink checks and clocks: only their outcomes appear.
- HTTP, HTML and JSON-LD parsing, regular expressions, excerpts and URL scoring: arbitrary functions; a URL is its scheme, host and path.
- The event loop: one handler runs to its end before the next; the abort signals that fire while the client disconnects are the parameter `linked`.
- Hashes: arbitrary functions, except that contract hashes of one authorization do not collide (`BudgetLedger.Frozen`) and that `BudgetLedger.SettleReplays` takes the hash of an unknown observation to differ from that of an authoritative one (`BudgetLedger.KindsDiffer`).
- Strings: sequences of characters, compared by code point where the source compares UTF-16 units; `localeCompare` is an arbitrary order.
- WilsonInterval: exact reals, with the square root as a parameter; no floating-point rounding, and the rates of `ActivationFloor` likewise.
- Sums of micros: unbounded, where the source adds doubles; only the ledger's own sums are shown to stay below the safe-integer limit.
- Gtin.CalculateCheckDigit: a body of digits only, since `Number` of another character is not a number and no caller passes one.
- BudgetLedger: one authorization, so a key used under another authorization does not arise; an observation is stored under its hash without its time; corrupt journals and schema errors are not modelled.
- The coordinator's request validation and reservation binding in front of the ledger (`handleRequest`): each request gets one reply, nothing more is used.
- RowProjection: gate blocks, candidate lists, reasons and evidence references of a row, which no count depends on; the paired status.
- LeadFetch: a page body that breaks off after its headers, which throws; the counters in `stats` and the receipts published afterwards; other workers' own outcomes.
- LeadDomains.FetchRun: takes the leads already grouped by domain, at least one to a group; lead-file validation is not part of this model.
- SitemapCrawl: the counters in `stats`; the redirect hops inside one fetch.
- FamilySplit: the sitemap match that admits feed rows, and the seed loop around feed and pages.
- ProfileDedupe: profile ids are distinct; profile names and canonical node ids, which carry no logic.
- PoolSampler.FillToQuota: the stratum of a list is a parameter, since every caller passes the candidates of one stratum; the final sort of the manifest.
- Shuffle.Pick: exact for lists below 2^21 elements, where the product is exact in a double.
- Evaluators, model and OCR calls, reports, argument parsers, latency statistics, release tables and fixture pages.
