# Cosmos Pay: payment intents, money and webhooks, verified

A Dafny model of the parts of the Cosmos Pay backend whose correctness is not visible in any one function:

- **The payment-intent lifecycle** (`Intents`, `Verifier`, `Lifecycle`): `PaymentIntentsService`,
  `StellarVerifierService` and `StellarObserverService` as one concurrent system over the `payment_intent` table, the
  ledger, the event log and a clock. Every request in flight and the observer's cycle are processes; a step takes one
  process from one `await` to the next, in any order, and any call may fail. A *run* is a list of actions. What every
  run keeps: settlement (`Settlement`, `Patches`), creation (`Creation`), ownership (`Ownership`), the order of writes and
  events (`Journal`), the observer's cycles (`Cycles`) and their progress (`Expiry`); concrete runs that go wrong
  (`Races`).
- **The same operations run to completion** (`Serial`), one change of table and log each, and the two services as
  objects updated in place and proved against them (`PaymentIntents`). What one observer cycle makes of every row is
  decided in `Reconciliation`. `Schedules` ties the two semantics together: a
  process of the concurrent system that is advanced without interruption, in whatever way, comes to an end with exactly
  the effect and answer `Serial` gives; `Embedding` makes a run of every serial run.
- **Money over IEEE-754 doubles** (`Decimals`, `Doubles`, `Money`, `Analytics`): amounts are integers of 10^-7 units
  (stroops); `Number(...)`, `+` and `toFixed(7)` are round-to-nearest computed on the reals (the half-ulp lemma is
  proved, not assumed); the dashboard's loops are methods proved against filter-and-sum.
- **Both together** (`Payments`, `Exactness`): which payments the verifier accepts, what `validate` and the observer make
  of a row, and what settlement and the dashboard mean, on the columns and in stroops.
- **Webhooks** (`Signature`, `Webhooks`, `FanOut`, `Redeliveries`): header and parser, the retry loop and redelivery,
  fan-out with the targets proceeding side by side, and redeliveries of one delivery that overlap.

`dafny verify dfyconfig.toml` checks everything.

## Which semantics each theorem holds in

| Holds in every interleaving | Holds when operations run one after the other, and interleaved exactly when |
|---|---|
| a paid row is backed by a fulfilling transaction (`Settlement`, `Exactness`), for exactly the PATCH bodies of `Patches.KeepsTruthIff` | the event log rebuilds the table (`Serial.EventsRebuildTable`): `Journal.StaysUpToDateIff`, `Journal.LogRebuildsIff`; always when writes of a row wait for each other's events (`Journal.WritesInTurnRebuild`) |
| one row per memo, one row per hash (`Settlement`) | SUCCEEDED is absorbing (`Serial.PaidIsAbsorbing`): `Settlement.StaysPaidIff` |
| creation is idempotent and announced once (`Creation`) | stored attempts are the POSTs made (`Webhooks.RetryAccounting`): `Redeliveries.BooksBalanceIff` |
| requests touch only their caller's rows, and events reach only the owner's endpoints (`Ownership`, `FanOut`) | |
| every write has exactly one event, and the writes' own order rebuilds the table (`Journal`) | |
| observer cycles never overlap (`Cycles`), and overdue rows drain (`Expiry`) | |
| fan-out is exact (`FanOut`) | |

The right column fails in some interleavings, and each entry names the theorem that says in which. Concrete runs:
`markExpired` writes over a payment that `validate` has just settled (`Races.ExpiryOverwritesPayment`), two PATCHes emit
their events in the other order than they wrote (`Races.EventsOutOfOrder`), two redeliveries at once count as one
(`Redeliveries.TwoRedeliveriesCountOne`).

A PATCH may write any status and hash. The state remembers the rows whose SUCCEEDED is a PATCH's word; settlement
soundness is about all others, and about all rows in runs whose PATCHes are safe: each sets a status other than
SUCCEEDED, or touches neither status nor hash.

## Where the code and its documentation part

The model follows the code.

- The README (lines 99-101) speaks of a native payment and of the memo "when the intent has a memo". The verifier
  accepts a payment in whatever asset the intent names, and every intent has a memo.
- "Exact amount" is equality of doubles. It is exact up to 536870912.0000003 units and not beyond
  (`Money.ComparisonExactIff`); a request of at most 536870912.0000002 units is safe from every other payment, however
  large (`Money.RequestsExactIff`).
- A supplied memo with a superfluous leading zero is accepted, and its row can never be settled by the service
  (`Exactness.OwnMemoMatchesIff`, `Exactness.LeadingZeroIsNeverPaid`).
- The dashboard's asset label tells stored codes apart but merges issuers of one code (`Assets.AssetLabelMergesIssuers`).
- Without a forwarded key kind, intents go to the configured network and the dashboard always looks at the test network
  (`Exactness.DashboardNetworkIff`).
- The README (lines 109-113) has the observer finalize the matches of PENDING intents. A cycle marks overdue rows
  before it looks for payments, so a payment made in time but first seen after the lifetime is left to `validate`, as
  is one for a row that was reported SUBMITTED (`Reconciliation.SeenTooLate`, `Reconciliation.OnlyPendingIsSettled`).
- `findByMemo(...)!` after a unique violation is null iff the row has been deleted meanwhile
  (`Creation.FallbackFindsTheRow`), and `Races.FallbackComesBackEmpty` is a run in which it is.

## Modelling choices

- A consumer is named by its gateway username; the table is a map from row ids; each Prisma call is one atomic step
  that may fail and then changes nothing; the two unique constraints are the schema's. Ids come fresh from the database.
- The ledger is what Horizon shows of both networks: it only grows, hashes are compared as strings, an account's
  records leave failed transactions out. Horizon's page size for a transaction's records and the scan's `limit` are
  parameters.
- A successful write and the event it causes are two steps; events carry the row that was written.
- `null` in a PATCH clears hash or reference, absence leaves them, as the spread of optional fields does.
- A printed number is modelled by what it denotes: `Money.Prints` admits every shortest decimal that reads back as the
  same double, so results hold for `1e-7` as for `0.0000001`. Reading a printed amount back gives the same double.
- Day keys are UTC day numbers, which `toISOString().slice(0, 10)` names one to one for four-digit years.
- HMAC-SHA256 is any hex-valued function of secret and text.
- Random bytes, the clock, database ids, network replies and rows whose calls fail are parameters.

## Model

| member | source | states |
|---|---|---|
| Settlement.RunKeepsInv | src/payment-intents/payment-intents.service.ts:179-559 | Every interleaving keeps: the constraints hold, each row keeps the terms it was created with, every process in flight has established what its next call relies on, and each paid row whose SUCCEEDED is not a PATCH's word is backed by the ledger. |
| Settlement.SettlementSoundness | src/payment-intents/stellar-verifier.service.ts:34-156 | In every run whose PATCHes are safe, each SUCCEEDED row names a successful transaction of its network with its memo and a payment to its destination, in its asset, of its amount under the verifier's comparison. |
| Settlement.PaidRowsAreBacked | src/payment-intents/payment-intents.service.ts:472-501 | The same for any run, for each SUCCEEDED row that no PATCH, since it was last settled, left SUCCEEDED while writing its status or hash. |
| Settlement.StepKeepsInv | src/payment-intents/payment-intents.service.ts:420-501 | One step of any process, settling from a stale snapshot included, keeps the invariant: the columns a payment is matched against never change. |
| Settlement.SoundStable | src/payment-intents/payment-intents.service.ts:441-449 | What one process has learned by an await stays true whatever rows are created and however the ledger grows meanwhile. |
| Settlement.OnePaymentOneIntent | prisma/schema.prisma:220-230 | In every reachable state no two rows hold one hash, and no ledger transaction could fulfil two rows of a consumer on one network. |
| Settlement.TakenHashSettlesNothing | src/payment-intents/payment-intents.service.ts:485-492 | Settling with a hash another row holds changes neither table nor event log; the request fails, the observer goes on to its next row. |
| Settlement.ReachableTablesConsistent | src/payment-intents/payment-intents.service.ts:114-147 | In every reachable state both unique constraints hold, an asset is native iff its issuer is null, and every row has a valid memo, an accepted amount and an expiry. |
| Settlement.PaidIsLostIff | src/payment-intents/payment-intents.service.ts:538-554 | A step takes a reachable paid row out of SUCCEEDED iff it is a markExpired or markFailed that goes by a reading of the row as unpaid, a delete, or a PATCH to another status, whose write goes through. |
| Settlement.StaysPaidIff | src/payment-intents/payment-intents.service.ts:538-554 | In every interleaving a row once paid stays paid throughout iff no later step carries out such a write. |
| Ownership.EventsReachOwners | src/payment-intents/payment-intents.service.ts:64-73 | In every interleaving each event on the bus is addressed to the consumer of the row it carries, the one the row was created for. |
| Ownership.OnlyOwnersWrite | src/payment-intents/payment-intents.service.ts:561-573 | In every interleaving no step of a consumer's request changes or removes a row of another consumer, however long ago ownership was checked. |
| Patches.KeepsTruthIff | src/payment-intents/payment-intents.service.ts:365-372 | From every reachable state in which SUCCEEDED means paid, writing a PATCH body to any row keeps it so iff the body sets a status other than SUCCEEDED, or touches neither status nor hash. |
| Patches.HashForges | src/payment-intents/payment-intents.service.ts:369 | For every PATCH body that gives a hash, or null, and no status there is a reachable state with a truly paid row, settled by the service itself where a lookup reads any record at all, that the PATCH leaves SUCCEEDED without a payment behind it. |
| Patches.StatusForges | src/payment-intents/payment-intents.service.ts:368 | For every PATCH body to SUCCEEDED there is a reachable state in which it marks an unpaid row paid. |
| Exactness.SettledInFull | src/payment-intents/stellar-verifier.service.ts:150-153 | In every interleaving, a row the service marked paid names a successful transaction of its network, under its memo as a numeric id, with a payment of its asset to its destination, and of exactly its amount, to the stroop, where one of at most 536870912.0000002 units is fixed. Stated column by column, without the verifier's own predicates. |
| Exactness.ValidateInFull | src/payment-intents/payment-intents.service.ts:420-469 | validate on an unpaid row, store and answer, decided on the columns of row and ledger: paid, with its payer where none was known, iff the ledger holds a successful transaction of that hash on its network under its memo, with a payment of its asset, to its destination, of its amount among the fetched records, and no other row has the hash; FAILED iff the transaction failed and no other row has the hash; an error iff another row has a hash to be written; otherwise unchanged. |
| Exactness.ObservedIff | src/payment-intents/stellar-observer.service.ts:113-116 | What the observer finds for a row, on the same columns: by the reported hash the first fetched record that pays it, otherwise the latest payment of it with fewer than `limit` newer ones at the destination; and with which payer. |
| Exactness.CycleSettlesIff | src/payment-intents/stellar-observer.service.ts:82-126 | A PENDING row a cycle selects and whose calls go through is paid iff such a payment is found and no other row has its hash in the end, and then holds its hash and payer. |
| Exactness.OwnMemoMatchesIff | src/payment-intents/stellar-verifier.service.ts:162-174 | The transaction built from an accepted memo passes the verifier's memo check for the row iff the memo has no superfluous leading zero. |
| Exactness.LeadingZeroIsNeverPaid | src/payment-intents/stellar-verifier.service.ts:167 | In every interleaving over a ledger that shows numeric memos canonically, the service never marks a row paid whose memo has a superfluous leading zero. |
| Exactness.LabelsNeverMix | src/analytics/analytics.service.ts:23-25 | In every reachable state the dashboard's label tells stored codes apart, and "XLM" collects exactly the rows without an issuer. |
| Exactness.DashboardsPrintTheTotal | src/analytics/analytics.service.ts:193-216 | For rows of any reachable state, in any two orders, both endpoints print the exact decimal total of the settled amounts while (count + 1) * total stays below 2^51 stroops. |
| Exactness.DashboardNetworkIff | src/analytics/analytics.service.ts:54-56 | The dashboard looks at the network its caller's intents are created on iff a key kind is forwarded or the configured default is the test network. |
| Creation.CreationIdempotent | src/payment-intents/payment-intents.service.ts:187-239 | In every interleaving without deletions of the key, all completed create calls of a (consumer, memo) return one id, it names the key's only row, and its CREATED event is out or due exactly once. |
| Creation.RunKeepsAnnounced | src/payment-intents/payment-intents.service.ts:231-238 | In every run each row ever created is announced exactly once: its CREATED event is in the log or exactly one process is about to emit it. |
| Creation.FallbackFindsTheRow | src/payment-intents/payment-intents.service.ts:286 | The lookup after a unique violation is empty iff the key has no row any more; without deletions the call answers with the existing row. |
| Races.FallbackComesBackEmpty | src/payment-intents/payment-intents.service.ts:286 | There is a run, for any pay request, in which a create call's insert violates the constraint, the row is removed, and the fallback lookup finds nothing. |
| Cycles.CyclesNeverOverlap | src/payment-intents/stellar-observer.service.ts:55-60 | In every run the running flag is up iff a cycle is in flight, and at most one is. |
| Expiry.QueueBound | src/payment-intents/stellar-observer.service.ts:63-80 | In every interleaving, from any point on, n sweeps leave at most E + A - n * batchSize overdue rows to do, where E were left at that point and A were added since by falling due or by a mark that failed; or there was a later point with none left, and the same bound counts from there. |
| Expiry.OverdueDrains | src/payment-intents/stellar-observer.service.ts:63-80 | In particular, with E overdue rows at some point, none newly falling due from then on and no mark failing, n sweeps leave at most E - n * batchSize rows to do, whichever rows the unordered query returns; after ceil(E / batchSize) sweeps every overdue row is in the hands of the cycle in flight, and none is left once that has marked its rows. |
| Expiry.SweepTakesBatch | src/payment-intents/stellar-observer.service.ts:64-71 | The query of a cycle takes min(batchSize, E) overdue rows in hand, and no other process holds any. |
| Expiry.OthersLeaveNoMore | src/payment-intents/stellar-observer.service.ts:72-80 | Every other step, of any process, leaves no more overdue rows to do than it adds, by making rows fall due or by a mark that fails. |
| Expiry.FallsDueOnlyBy | src/payment-intents/payment-intents.service.ts:304-309 | A row newly falls due only as time passes, when it is created past its lifetime, or when a PATCH reopens it. |
| Expiry.OverdueStays | src/payment-intents/payment-intents.service.ts:304-309 | An overdue row stays overdue, whatever any process does, until a step writes or removes it. |
| Races.ExpiryOverwritesPayment | src/payment-intents/payment-intents.service.ts:551-554 | For every pay intent there is a run in which validate settles the row and the observer, having read it earlier, then marks it EXPIRED. |
| Races.EventsOutOfOrder | src/payment-intents/payment-intents.service.ts:381-385 | Two interleaved PATCHes can end with all requests done and a log that replays to another row than the table holds. |
| Journal.WritesRebuildTable | src/payment-intents/payment-intents.service.ts:64-73 | In every interleaving, replaying the events of the writes in the order of the writes rebuilds the table. |
| Journal.OneEventPerWrite | src/payment-intents/payment-intents.service.ts:381-385 | In every interleaving each successful write has exactly one event, emitted already or owed by one process. |
| Journal.MoveIsLocal | src/payment-intents/payment-intents.service.ts:485-492 | Every call leaves the table alone, or changes it exactly as the one event it then owes says. |
| Journal.StepBreaksIff | src/payment-intents/payment-intents.service.ts:64-73 | From a reachable state whose log agrees with the table on every row without a due event, a step breaks that iff it emits a row's last due event and the event is not what the table now holds. |
| Journal.StaysUpToDateIff | src/payment-intents/payment-intents.service.ts:64-73 | A run keeps that agreement throughout iff it takes no such step. |
| Journal.LogRebuildsIff | src/payment-intents/payment-intents.service.ts:64-73 | In every run the log rebuilds the table iff, for each row, the event emitted last says what the event of the last write says. |
| Journal.WritesInTurnRebuild | src/payment-intents/payment-intents.service.ts:64-73 | In every run in which no process writes a row between another's write of it and that write's event, the log stays up to date, and whenever no event is due it rebuilds the table exactly. |
| Serial.EventsRebuildTable | src/payment-intents/payment-intents.service.ts:64-73 | After every operation of every serial run, replaying the events (upsert by id, remove on DELETED) rebuilds the table exactly. |
| Serial.CreateIsJournaled | src/payment-intents/payment-intents.service.ts:190-238 | A replay changes and announces nothing and answers with the key's row; a transaction that does not build fails without a trace; otherwise one row is born, column by column as requested, PENDING and with its lifetime, and one CREATED event carries it. |
| Serial.PatchIsJournaled | src/payment-intents/payment-intents.service.ts:357-387 | A PATCH fails iff the row is not the consumer's or the hash is taken, and then changes nothing; otherwise status, hash and reference are as given or as before, nothing else moves, and the new row is announced once. |
| Serial.PatchEventNamesStatus | src/payment-intents/payment-intents.service.ts:76-87 | The event of a PATCH is the one of the final status it sets: SUCCEEDED, FAILED and CANCELLED each have their own, which no other patch emits, and none is CREATED or DELETED. |
| Serial.RemoveIsJournaled | src/payment-intents/payment-intents.service.ts:390-410 | A removal is refused iff the row is not the consumer's or is paid, and then changes nothing; otherwise the row is gone and announced once. |
| Serial.SettleIsJournaled | src/payment-intents/payment-intents.service.ts:472-492 | Settling fails iff the row is gone or the hash is taken by another; otherwise the row is SUCCEEDED with that hash and announced once. |
| Serial.RejectIsJournaled | src/payment-intents/payment-intents.service.ts:533-544 | Failing a row is refused iff the row is gone or another row holds the given hash, and then changes nothing; otherwise it is stored as FAILED, with the hash if one is given, and announced once. |
| Serial.ExpireIsJournaled | src/payment-intents/payment-intents.service.ts:547-559 | Expiring an existing row never fails, changes only its status, and announces it once as UPDATED. |
| Serial.ValidateIsJournaled | src/payment-intents/payment-intents.service.ts:420-469 | validate makes at most one announced change; it is refused on a row that is not the consumer's, answers valid on a paid one, and changes nothing in either case. |
| Serial.ValidateOutcome | src/payment-intents/payment-intents.service.ts:441-468 | validate pays an unpaid row iff the transaction fulfils it through a fetched record and the hash is free, fails it if the transaction failed on-chain and the hash is free, and otherwise leaves everything as it was; the answer is valid iff the row is paid, with its status, or an error iff a hash to be written is taken. |
| Serial.SettleKeepsKnownSource | src/payment-intents/payment-intents.service.ts:480-488 | Settlement records the payer only where no source is known and rewrites nothing but status, hash and that. |
| Serial.ObservedFulfils | src/payment-intents/stellar-observer.service.ts:114-116 | Whatever hash the observer settles on, by lookup or by scan, is that of a transaction that fulfils the row. |
| Reconciliation.CycleInFull | src/payment-intents/stellar-observer.service.ts:55-106 | A cycle whose batches hold all rows, on the columns before it: a PENDING or SUBMITTED row whose expiresAt is past and whose call goes through becomes EXPIRED; any other PENDING row whose calls go through gets the outcome of its round; every other row stays as it is. |
| Reconciliation.BatchesInFull | src/payment-intents/stellar-observer.service.ts:64-88 | Batches of any size: the first holds PENDING or SUBMITTED rows past their expiresAt and leaves none out unless full, the second PENDING rows that were not marked, oldest first, none of those left out older. |
| Reconciliation.TickDecides | src/payment-intents/stellar-observer.service.ts:55-106 | One cycle, row by row: a row it marks is EXPIRED whatever the ledger holds; a pending row it selects and whose calls go through is SUCCEEDED with the hash and payer found iff a payment is found and no other row has that hash in the end; every other row stays as it is. |
| Reconciliation.FoundIff | src/payment-intents/stellar-observer.service.ts:114-118 | A row without a reported hash, whose destination has no more records than a scan reads, is found paid iff some transaction on the ledger fulfils it. |
| Reconciliation.PaidAfterTickIff | src/payment-intents/stellar-observer.service.ts:82-98 | Such a row, selected by a cycle whose calls for it go through, is paid after the cycle iff some transaction fulfils it and no other row has the hash found. |
| Reconciliation.SeenTooLate | src/payment-intents/stellar-observer.service.ts:63-80 | A row a cycle marks is EXPIRED after it although a transaction on the ledger fulfils it: a payment made in time and first seen after the lifetime is not settled by the observer. |
| Reconciliation.OnlyPendingIsSettled | src/payment-intents/stellar-observer.service.ts:83-88 | A row that is not PENDING, SUBMITTED included, is never settled by a cycle: it stays as it is or is marked EXPIRED. |
| Serial.PaidIsAbsorbing | src/payment-intents/payment-intents.service.ts:397-405 | In every serial run without a PATCH of the status, a paid row stays in the table as SUCCEEDED through creations, deletions, validations and observer cycles. |
| Serial.ExpireAllExact | src/payment-intents/stellar-observer.service.ts:72-80 | A cycle's first loop marks expired exactly the rows it selected whose calls went through. |
| Schedules.AloneIsPromised | src/payment-intents/payment-intents.service.ts:179-559 | Every uninterrupted schedule of any process in flight in a reachable state, if it ends, ends with the store and answer promised where it starts. |
| Schedules.SoloEnds | src/payment-intents/stellar-observer.service.ts:55-106 | No process, alone, takes more than a number of steps given by where it stands. |
| Schedules.SoloCompletes | src/payment-intents/payment-intents.service.ts:179-559 | Every process in flight can be advanced, alone and by its script, until it is done. |
| Schedules.CreateAlone | src/payment-intents/payment-intents.service.ts:190-238 | In the concurrent system, however a createTx or createPay is advanced alone from a reachable state, failing to build where the script says so, it ends with exactly the serial effect and answer. |
| Schedules.PatchAlone | src/payment-intents/payment-intents.service.ts:357-387 | The same for update, for every uninterrupted schedule. |
| Schedules.RemoveAlone | src/payment-intents/payment-intents.service.ts:390-410 | The same for remove, across its two reads, its delete and its event. |
| Schedules.ValidateAlone | src/payment-intents/payment-intents.service.ts:420-469 | The same for validate, across its reads, Horizon calls, write and event. |
| Schedules.LookupAlone | src/payment-intents/stellar-verifier.service.ts:34-72 | However the calls of a lookup are advanced, the process ends as the verdict of verifyByHash has it. |
| Schedules.ScanAlone | src/payment-intents/stellar-verifier.service.ts:101-120 | However the calls of a scan are advanced, one record at a time, the process ends as the verdict of findMatchingPayment has it. |
| Schedules.TickAlone | src/payment-intents/stellar-observer.service.ts:55-106 | However a whole observer cycle is advanced alone, with the given rows' calls failing anywhere on the way, it ends with exactly the effect of the serial cycle. |
| Embedding.SerialRunsAreRuns | src/payment-intents/payment-intents.service.ts:179-559 | Every serial run over one clock, one growing ledger and fresh ids is a run of the concurrent system, with the same table and log and every process done. |
| PaymentIntents.TxIsValid | src/payment-intents/payment-intents.service.ts:186-187 | Whatever createTx lets through is storable: native iff no issuer, a 64-bit numeric memo, an accepted amount. |
| PaymentIntents.PayIsValid | src/payment-intents/payment-intents.service.ts:253-254 | The same for createPay, whose amount may be absent. |
| PaymentIntents.RequestTerms | src/payment-intents/payment-intents.service.ts:114-147 | A createTx is refused exactly for an asset that does not resolve or a memo that is no numeral of at most 18446744073709551615; an accepted one carries the body's terms, the resolved asset, and the memo given or the numeral of eight random bytes. |
| PaymentIntents.PayTerms | src/payment-intents/payment-intents.service.ts:247-285 | The same for createPay, without a source and with the amount as given or open. |
| PaymentIntents.Service.Persist | src/payment-intents/payment-intents.service.ts:301-316 | The insert answers null iff the (consumer, memo) key is taken, and otherwise stores the row with its lifetime stamped. |
| PaymentIntents.Service.CreateTx | src/payment-intents/payment-intents.service.ts:179-240 | The method has the serial effect of creation for the request its body resolves to, and a bad asset or memo changes nothing. |
| PaymentIntents.Service.CreatePay | src/payment-intents/payment-intents.service.ts:247-295 | The same for createPay. |
| PaymentIntents.Service.Patch | src/payment-intents/payment-intents.service.ts:357-387 | The method has exactly the serial effect and answer of a PATCH and keeps the journal. |
| PaymentIntents.Service.Remove | src/payment-intents/payment-intents.service.ts:390-410 | The same for remove. |
| PaymentIntents.Service.MarkSucceeded | src/payment-intents/payment-intents.service.ts:472-501 | The same for markSucceeded. |
| PaymentIntents.Service.MarkFailed | src/payment-intents/payment-intents.service.ts:533-544 | The same for markFailed. |
| PaymentIntents.Service.MarkExpired | src/payment-intents/payment-intents.service.ts:547-559 | The same for markExpired. |
| PaymentIntents.Service.Validate | src/payment-intents/payment-intents.service.ts:420-469 | The same for validate. |
| PaymentIntents.Service.QueryOverdue | src/payment-intents/stellar-observer.service.ts:64-71 | Returns distinct PENDING or SUBMITTED rows whose expiresAt is past, in no promised order: a full batch of them, or all there are. |
| PaymentIntents.Service.QueryPending | src/payment-intents/stellar-observer.service.ts:83-88 | Returns min(batchSize, P) distinct pending rows, oldest first, none of the others older. |
| PaymentIntents.Observer.Tick | src/payment-intents/stellar-observer.service.ts:55-106 | Does nothing while a cycle runs; otherwise has the effect of one serial cycle with legal batches, and lowers the flag. |
| PaymentIntents.Observer.Reconcile | src/payment-intents/stellar-observer.service.ts:108-126 | Settles a row by its reported hash, or by scanning where none is reported, exactly as the serial function does. |
| Payments.MatchesIffPays | src/payment-intents/stellar-verifier.service.ts:127-156 | A payment matches a stored row iff it is a payment of its asset (native, or code and issuer) to its destination, of its amount to the stroop however the two texts are written, for rows of an open amount or one of at most 536870912.0000002 units. |
| Payments.LookupInFull | src/payment-intents/stellar-verifier.service.ts:34-72 | The verdict of verifyByHash on such a row, reasons included: not found, failed on-chain, memo mismatch, no payment, or valid with the payer of the first fetched record that pays the row. |
| Payments.FittingPaymentIsAccepted | src/payment-intents/stellar-verifier.service.ts:60-72 | A transaction that pays the row under its memo is accepted if its records fit on one page. |
| Payments.ScanInFull | src/payment-intents/stellar-verifier.service.ts:79-121 | The scan of such a row names the latest payment of it under its memo, provided fewer than `limit` payments of the destination came after it, and finds nothing otherwise. |
| Payments.LastPaymentIsFound | src/payment-intents/stellar-verifier.service.ts:86-92 | However many payments came before, one in the ledger's last transaction is found if that transaction holds at most `limit` payments of the destination. |
| Verifier.LookupAcceptsIff | src/payment-intents/stellar-verifier.service.ts:34-72 | verifyByHash accepts iff the transaction fulfils the intent and a payment that does so is among the fetched records, and answers with that hash. |
| Verifier.FindMatchingPayment | src/payment-intents/stellar-verifier.service.ts:79-121 | The scan succeeds iff one of the destination's last `limit` records belongs to a transaction that fulfils the intent through it, and names the most recent such record. |
| Verifier.RecordsInOrder | src/payment-intents/stellar-verifier.service.ts:86-92 | The records a scan pages through are exactly the payments to or from the account in the network's successful transactions, each once, in the reverse of the ledger's order. |
| Verifier.ScanFindsIff | src/payment-intents/stellar-verifier.service.ts:86-120 | However many records there are, the scan succeeds iff some payment fulfils the intent with fewer than `limit` newer payments of the destination, and names hash and payer of the latest that does. |
| Verifier.ScanAndLookupAgree | src/payment-intents/stellar-verifier.service.ts:60-72 | A hash the scan found is accepted by the lookup iff its page reaches a matching record, hence always when the page holds all of the transaction's records. |
| Verifier.UncroppedScanDecides | src/payment-intents/stellar-verifier.service.ts:86-120 | While the destination has at most `limit` records, the scan succeeds iff some transaction of the ledger fulfils the intent. |
| Verifier.OneMemoPerTransaction | src/payment-intents/stellar-verifier.service.ts:162-174 | A transaction fulfils intents of one memo only. |
| Verifier.FulfilsStable | src/payment-intents/stellar-verifier.service.ts:127-156 | A verdict survives a longer ledger and any rewriting of columns that are not matched. |
| Doubles.NearestIsNearest | src/payment-intents/stellar-verifier.service.ts:151 | No number of at most 53 significant bits lies closer to x than the rounding of x. |
| Doubles.NearestIsDouble | src/payment-intents/stellar-verifier.service.ts:151 | The rounding of x has at most 53 significant bits. |
| Doubles.HalfUlp | src/analytics/analytics.service.ts:12-21 | The rounding error is at most half the spacing of doubles at x. |
| Doubles.NearestMonotone | src/payment-intents/stellar-verifier.service.ts:151 | Rounding keeps the order of amounts. |
| Decimals.AmountSyntax | src/payment-intents/dto/create-tx-payment-intent.dto.ts:30-33 | Accepted are exactly one or more digits, or one or more digits, a point and one to seven digits. |
| Decimals.LiteralValueIsStroops | src/payment-intents/dto/create-tx-payment-intent.dto.ts:30-33 | Every accepted amount string, with any leading or trailing zeros, denotes a whole number of stroops. |
| Money.ComparisonExactIff | src/payment-intents/stellar-verifier.service.ts:150-153 | `Number` equality means equal amounts for all accepted strings of up to `limit` stroops iff limit is at most 536870912.0000003 units. |
| Money.RequestsExactIff | src/payment-intents/stellar-verifier.service.ts:150-153 | No other payment, however large, passes for a requested amount of up to `limit` stroops iff limit is at most 536870912.0000002 units. |
| Money.FirstCollision | src/payment-intents/stellar-verifier.service.ts:150-153 | 536870912.0000003 and 536870912.0000004 are different amounts that compare equal. |
| Money.SeriesVolumeExact | src/analytics/analytics.service.ts:110-118 | While a day's settled total stays below 2^28 units, rounding at every step leaves the double nearest to the exact sum, for any number of amounts. |
| Money.RoundingStep | src/analytics/analytics.service.ts:116 | One step `money(num(prev) + num(amount))` on nearest doubles lands on the nearest double of the exact sum. |
| Money.SumDrift | src/analytics/analytics.service.ts:88-94 | A running double sum of n amounts totalling T stroops is off by at most 2(n + 1)T parts in 2^53. |
| Money.SumExact | src/analytics/analytics.service.ts:209-216 | Rounding once at the end gives the exact total while (n + 1) * T is below 2^51 stroops. |
| Money.SumOrderIrrelevant | src/analytics/analytics.service.ts:86-99 | Under that bound any two orders of the same amounts print the same sum. |
| Money.SevenPlacesSuffice | src/analytics/analytics.service.ts:19-21 | A shortest decimal of a double nearest to t stroops has at most seven places. |
| Money.PrintsExactly | src/analytics/analytics.service.ts:19-21 | Whatever shortest decimal `toString` prints for the double nearest to t stroops (below 2^28 units) denotes t stroops. |
| Assets.ResolveInFull | src/payment-intents/payment-intents.service.ts:114-129 | A code between spaces resolves to the native asset if it is empty or spells xlm or native in any casing, whatever issuer is given; any other code is stored as it stands between the spaces, and is refused iff no issuer is given. |
| Assets.PlainCodesAreTrimmed | src/payment-intents/dto/create-tx-payment-intent.dto.ts:36-44 | A code of letters and digits, as the request validation demands, is stored as it is. |
| Assets.ResolvedIsStored | src/payment-intents/payment-intents.service.ts:114-129 | What resolveAsset returns is native iff it has no issuer, and is no other spelling of lumens; it refuses exactly a non-native code without issuer. |
| Assets.AssetLabelInjective | src/analytics/analytics.service.ts:23-25 | Labels of stored assets agree iff their codes do. |
| Assets.AssetLabelMergesIssuers | src/analytics/analytics.service.ts:23-25 | Two issuers of one code share a label. |
| Memos.RandomMemoRoundTrip | src/payment-intents/payment-intents.service.ts:146 | A generated memo passes the service's own check, is already canonical, denotes its eight bytes, and tells them apart. |
| Memos.SuppliedMemoMatchesIff | src/payment-intents/payment-intents.service.ts:136-143 | An accepted memo equals the one its transaction shows on-chain iff it has no superfluous leading zero. |
| Analytics.CountByStatus | src/analytics/analytics.service.ts:79-80 | The loop's map gives, for every status, the number of its rows. |
| Analytics.StatusTotals | src/analytics/analytics.service.ts:141-149 | Each of the six totals counts its rows, and they add up to `all`. |
| Analytics.SettledVolume | src/analytics/analytics.service.ts:87-94 | The map holds, for exactly the assets with a settled row, the double sum and the count of their settled rows. |
| Analytics.DailySeries | src/analytics/analytics.service.ts:102-118 | Updated in place over all rows, the 30 buckets hold the count of the rows created on their day and the rounded volume of the settled ones. |
| Analytics.AddToBucket | src/analytics/analytics.service.ts:114-117 | One row changes one bucket of the array: its count, and its volume if the row is settled. |
| Analytics.DayMeans | src/analytics/analytics.service.ts:111 | The day of an instant is that of the 86400000 milliseconds from its UTC midnight on. |
| Analytics.DaysAreConsecutive | src/analytics/analytics.service.ts:102-108 | The 30 keys are consecutive UTC days ending today, whatever the time of day. |
| Analytics.IndexByDate | src/analytics/analytics.service.ts:109 | The index finds exactly the days of the window, each at its position. |
| Analytics.SeriesCountsTheWindow | src/analytics/analytics.service.ts:110-114 | The counts of the series add up to the rows created in the 30 days. |
| Analytics.Balances | src/analytics/analytics.service.ts:193-207 | The map holds, for exactly the assets with a row, the sums of the settled and of the open rows and the settled count. |
| Analytics.VolumePrintsExactly | src/analytics/analytics.service.ts:209-215 | Under the bound what is printed for the settled, or the open, amounts of an asset denotes their exact decimal total. |
| Analytics.DayPrintsExactly | src/analytics/analytics.service.ts:116 | Below 2^28 units what is printed for a day denotes the exact decimal total. |
| Analytics.EndpointsAgree | src/analytics/analytics.service.ts:193-216 | Over the same rows in different orders both endpoints print the same volume and count under the bound. |
| Signature.HeaderRoundTrip | src/webhooks/webhook-signature.ts:10-17 | The parser of the README recovers timestamp and signature from every header built, for any integer timestamp. |
| Signature.EveryPostVerifies | README.md:149-157 | The README's verify accepts every header the service builds. |
| Signature.VerifiesIff | README.md:149-157 | A header built for one body and secret is accepted for any other body or secret iff the two signatures coincide; the signed texts coincide only for the same body. |
| Signature.IntTextIs | src/webhooks/webhook-signature.ts:16 | A timestamp is printed as the canonical numeral of its value, with a sign if it is negative. |
| Signature.SignedTextInjective | src/webhooks/webhook-signature.ts:19-27 | The signed text determines timestamp and body. |
| Webhooks.TriesStopAtFirstOk | src/webhooks/webhook-dispatcher.service.ts:108-150 | A run goes on after an exception and after every response but one of 200 to 299, at which it stops; otherwise it makes exactly maxAttempts POSTs. |
| Webhooks.PostsInFull | src/webhooks/webhook-dispatcher.service.ts:103-131 | The i-th POST of a run goes to the endpoint's URL with the stored payload as its body, the delivery's id, a header that signs time and payload with the endpoint's secret, after a wait of backoffMs * i. |
| Webhooks.Dispatcher.PostUntilOk | src/webhooks/webhook-dispatcher.service.ts:103-150 | The loop makes those POSTs, each with the stored payload to the endpoint's URL, signed at its own time and sent after its own wait, and ends with the count, code and error of the last. |
| Webhooks.Dispatcher.Attempt | src/webhooks/webhook-dispatcher.service.ts:96-156 | Leaves the row as the specification of a run says, adds exactly its POSTs, and keeps the books: stored attempts equal the POSTs ever made. |
| Webhooks.Dispatcher.Finalize | src/webhooks/webhook-dispatcher.service.ts:202-219 | Rewrites status, attempts, code and error of one row and closes the books on the run. |
| Webhooks.Dispatcher.Redeliver | src/webhooks/webhook-dispatcher.service.ts:85-93 | Refuses iff the endpoint is gone, changing nothing; otherwise runs the loop on the stored row. |
| Webhooks.Dispatcher.CreateAndDeliver | src/webhooks/webhook-dispatcher.service.ts:60-79 | Creates one row and leaves it as a run on a fresh row does. |
| Webhooks.RunVerifies | src/webhooks/webhook-dispatcher.service.ts:110-131 | Every POST of a run carries the stored payload and verifies at the receiver for that payload under the endpoint's secret. |
| Webhooks.RunWaits | src/webhooks/webhook-dispatcher.service.ts:146-149 | A run of k POSTs sleeps backoffMs * k(k-1)/2 in all. |
| Webhooks.RetryAccounting | src/webhooks/webhook-dispatcher.service.ts:85-156 | Over one delivery and any redeliveries, stored attempts are all POSTs made, status, code and error describe the last (delivered iff it was answered with 200 to 299), and nothing else is rewritten. |
| Redeliveries.StepUnbalancesIff | src/webhooks/webhook-dispatcher.service.ts:202-219 | From balanced books (stored attempts and the POSTs of unfinished runs make up the POSTs made) a step unbalances them iff a run writes its outcome over a count that has changed since it read the row. |
| Redeliveries.BooksBalanceIff | src/webhooks/webhook-dispatcher.service.ts:96-156 | A history of any number of runs on one delivery, overlapping at will, keeps its books balanced throughout iff no run ever does that. |
| Redeliveries.LostIsOverwritten | src/webhooks/webhook-dispatcher.service.ts:104 | In every such history the POSTs unaccounted for are exactly the counts written over. |
| Redeliveries.OneAtATimeIsSerial | src/webhooks/webhook-dispatcher.service.ts:85-156 | If every run begins after the ones before have written, the books balance and the row is what one delivery and its redeliveries, one after the other, leave. |
| Redeliveries.OverlapLosesTheFirst | src/webhooks/webhook-dispatcher.service.ts:104 | Of two stopped runs that read the same count, the one that writes first has all its POSTs lost, which is none only where no attempts are allowed. |
| Redeliveries.TwoRedeliveriesCountOne | src/webhooks/webhook-dispatcher.service.ts:104 | Every delivery has a history in which two redeliveries make two POSTs and the stored count grows by one. |
| FanOut.FanOutExact | src/webhooks/webhook-dispatcher.service.ts:31-79 | However the targets interleave and their POSTs end, an endpoint gets exactly one delivery of the event, with its kind and body, if it is enabled, owned by the event's consumer and lists the kind or no kinds, settled as a run of the loop leaves it; no other endpoint gets one, and earlier rows are untouched. |
| FanOut.OthersGetNothing | src/webhooks/webhook-dispatcher.service.ts:32-37 | At no point of any fan-out does a delivery of the event belong to an endpoint of another consumer. |
| FanOut.UnfinishedIsWaiting | src/webhooks/webhook-dispatcher.service.ts:60-79 | Until the run on it has ended, a delivery is waiting and counts no attempts, however many of its POSTs were made. |
| FanOut.StepKeepsInv | src/webhooks/webhook-dispatcher.service.ts:52-56 | One step of one target touches only that target's row, which stays what its replies so far make it. |

## Left out

- HTTP, guards, request logging, configuration, OpenAPI: framework plumbing without state of interest.
- SEP-7 `xdr`, `uri`, `msg`, `callback`, QR images and `updatedAt`: derived or informational columns no theorem is about; whether the source account loads and the transaction builds is a parameter.
- Products and customers, pagination, the log views, endpoint and secret management, the endpoint ping: thin wrappers over queries. The automatic customer write cannot affect the intent.
- `summary`'s success rate, distinct payers, recent rows and webhook health, and the final sort of `balances`: single expressions over the same rows.
- `Number` on syntaxes other than accepted amounts (signs, exponents, hexadecimal) is NaN in the model: neither the request validation nor the ledger produces them.
- Subnormal doubles: every non-zero value handled is at least 10^-7, so the exponent range is not cut off below.
- `toFixed` of values from 10^21 on keeps the value, as the standard has it; no theorem reaches there.
- The case of hexadecimal hashes: hashes are compared as strings, so two spellings of one hash count as two.
- Webhooks.Dispatcher.Attempt: the row creation of a fan-out is taken to succeed; the wait before a POST is recorded, not spent; the loop is split off as PostUntilOk so that it returns to a single finalizing write.
- PaymentIntents.Observer.Tick: the two loops are methods of their own, and the timer is the caller; interleaving with requests is in Lifecycle, not in the class.
- PaymentIntents.Service.CreateTx: creation up to the insert is one method shared with createPay; a unique violation cannot happen in it since calls do not interleave, the race is in Lifecycle.
- Redeliveries.LostIsOverwritten: one delivery at a time, and the update of a finished run is taken to go through.
- Analytics.SettledVolume: tests the status inside the loop instead of filtering first.
