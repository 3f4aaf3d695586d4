/** Each operation run to completion on its own, as one change of the table and the event log. */
module Serial {
  import opened Wrappers
  import opened Intents
  import opened Verifier
  import opened Lifecycle
  import opened Settlement

  datatype Store = Store(table: Table, events: seq<Event>)

  /** A store after an operation, and what the operation answered. */
  datatype Result = Result(store: Store, answer: Answer)

  // ── Operations ─────────────────────────────────────────────────────────────

  /** createTx and createPay. `builds` is whether the source account loads and the transaction builds. */
  ghost function Create(st: Store, q: CreateRequest, id: string, now: int, expiresAt: int, builds: bool): Result
    requires id !in st.table
  {
    var existing := FindByMemo(st.table, q.consumer, q.memo);
    if existing.Some? then Result(st, Created(q.consumer, q.memo, existing.value.id))
    else if q.kind == TX && !builds then Result(st, Failed)
    else
      var row := NewRow(q, id, now, expiresAt);
      Result(Store(st.table[id := row], st.events + [Event(q.consumer, CREATED, row)]), Created(q.consumer, q.memo, id))
  }

  /** A successful `update` call followed by its event; otherwise the operation fails. */
  ghost function Mutate(st: Store, row: Intent, event: Event, answer: Answer): Result {
    if row.id in st.table && Write(st.table, row).Some? then
      Result(Store(Write(st.table, row).value, st.events + [event]), answer)
    else Result(st, Failed)
  }

  ghost function PatchIntent(st: Store, consumer: string, id: string, patch: Patch): Result {
    if !Owned(st.table, consumer, id) then Result(st, Failed)
    else
      var row := Patched(st.table[id], patch);
      Mutate(st, row, Event(consumer, PatchEvent(patch), row), Updated(id))
  }

  ghost function Remove(st: Store, consumer: string, id: string): Result {
    if !Owned(st.table, consumer, id) || st.table[id].status == SUCCEEDED then Result(st, Failed)
    else Result(Store(Delete(st.table, id), st.events + [Event(consumer, DELETED, st.table[id])]), Removed(id))
  }

  /** markSucceeded */
  ghost function Settle(st: Store, consumer: string, id: string, txHash: string, payer: string): Result {
    if id !in st.table then Result(st, Failed)
    else
      var row := Settled(st.table[id], txHash, SourceToSet(st.table[id].source, payer));
      Mutate(st, row, Event(consumer, SETTLED, row), Outcome(true, SUCCEEDED))
  }

  /** markFailed */
  ghost function Reject(st: Store, consumer: string, id: string, txHash: string): Result {
    if id !in st.table then Result(st, Failed)
    else
      var row := Rejected(st.table[id], txHash);
      Mutate(st, row, Event(consumer, REJECTED, row), Outcome(false, FAILED))
  }

  /** markExpired */
  ghost function Expire(st: Store, consumer: string, id: string): Result {
    if id !in st.table then Result(st, Failed)
    else
      var row := Lapsed(st.table[id]);
      Mutate(st, row, Event(consumer, UPDATED, row), Updated(id))
  }

  ghost function Validate(c: Config, ledger: Ledger, st: Store, consumer: string, id: string, txHash: string): Result {
    if !Owned(st.table, consumer, id) then Result(st, Failed)
    else if st.table[id].status == SUCCEEDED then Result(st, Outcome(true, SUCCEEDED))
    else
      match VerifyByHash(ledger, c.pageSize, st.table[id], txHash)
      case Valid(hash, payer) => Settle(st, consumer, id, hash, payer)
      case Invalid(reason) =>
        if reason == FAILED_ON_CHAIN then Reject(st, consumer, id, txHash)
        else Result(st, Outcome(false, st.table[id].status))
  }

  // ── The observer's cycle ───────────────────────────────────────────────────

  /** The first loop; the calls for the rows in `failing` are rejected and logged. */
  ghost function ExpireAll(st: Store, rows: seq<Intent>, failing: set<string>): Store {
    if rows == [] then st
    else
      var last, done := rows[|rows| - 1], ExpireAll(st, rows[..|rows| - 1], failing);
      if last.id in failing then done else Expire(done, last.consumer, last.id).store
  }

  /** What the observer learns about one pending row. */
  function Observed(c: Config, ledger: Ledger, row: Intent): Verification {
    if row.txHash.Some? && row.txHash.value != "" then VerifyByHash(ledger, c.pageSize, row, row.txHash.value)
    else Scan(ledger, row, RecentPage(ledger, row.network, row.destination, c.scanLimit))
  }

  ghost function Reconcile(c: Config, ledger: Ledger, st: Store, row: Intent): Store {
    match Observed(c, ledger, row)
    case Valid(hash, payer) => if hash != "" then Settle(st, row.consumer, row.id, hash, payer).store else st
    case Invalid(_) => st
  }

  /** The second loop; Horizon or the database is down for the rows in `down`. */
  ghost function ReconcileAll(c: Config, ledger: Ledger, st: Store, rows: seq<Intent>, down: set<string>): Store {
    if rows == [] then st
    else
      var last, done := rows[|rows| - 1], ReconcileAll(c, ledger, st, rows[..|rows| - 1], down);
      if last.id in down then done else Reconcile(c, ledger, done, last)
  }

  /** The rows the two queries of a cycle select, and what fails on the way. */
  datatype Cycle = Cycle(now: int, overdue: seq<string>, failing: set<string>, pending: seq<string>, down: set<string>)

  ghost function Expired(st: Store, cycle: Cycle): Store
    requires forall id | id in cycle.overdue :: id in st.table
  {
    ExpireAll(st, Rows(st.table, cycle.overdue), cycle.failing)
  }

  ghost predicate LegalCycle(c: Config, st: Store, cycle: Cycle) {
    && AnyBatch(st.table, OverdueIds(st.table, cycle.now), c.batchSize, cycle.overdue)
    && OldestBatch(Expired(st, cycle).table, c.batchSize, cycle.pending)
  }

  ghost function Tick(c: Config, ledger: Ledger, st: Store, cycle: Cycle): Store
    requires LegalCycle(c, st, cycle)
  {
    var mid := Expired(st, cycle);
    ReconcileAll(c, ledger, mid, Rows(mid.table, cycle.pending), cycle.down)
  }

  // ── Serial runs ────────────────────────────────────────────────────────────

  datatype Operation =
    | CreateOp(request: CreateRequest, id: string, now: int, expiresAt: int, builds: bool)
    | PatchOp(consumer: string, id: string, patch: Patch)
    | RemoveOp(consumer: string, id: string)
    | ValidateOp(ledger: Ledger, consumer: string, id: string, txHash: string)
    | TickOp(ledger: Ledger, cycle: Cycle)

  ghost predicate Legal(c: Config, st: Store, op: Operation) {
    match op
    case CreateOp(q, id, _, _, _) => ValidRequest(q) && id !in st.table
    case TickOp(_, cycle) => LegalCycle(c, st, cycle)
    case _ => true
  }

  ghost function EffectOf(c: Config, st: Store, op: Operation): Store
    requires Legal(c, st, op)
  {
    match op
    case CreateOp(q, id, now, expiresAt, builds) => Create(st, q, id, now, expiresAt, builds).store
    case PatchOp(consumer, id, patch) => PatchIntent(st, consumer, id, patch).store
    case RemoveOp(consumer, id) => Remove(st, consumer, id).store
    case ValidateOp(ledger, consumer, id, txHash) => Validate(c, ledger, st, consumer, id, txHash).store
    case TickOp(ledger, cycle) => Tick(c, ledger, st, cycle)
  }

  /** A history of stores, each the effect of one operation on the one before. */
  ghost predicate SerialRun(c: Config, ops: seq<Operation>, stores: seq<Store>) {
    && |stores| == |ops| + 1 && stores[0] == Store(map[], [])
    && forall i | 0 <= i < |ops| :: Legal(c, stores[i], ops[i]) && stores[i + 1] == EffectOf(c, stores[i], ops[i])
  }

  // ── Journal ────────────────────────────────────────────────────────────────

  /** The event log is a faithful journal of the table, and the table keeps its constraints. */
  ghost predicate Faithful(st: Store) { Replay(st.events) == st.table && Consistent(st.table) }

  /** Nothing happened, or one row was written and announced as it now stands. */
  ghost predicate OneChange(st: Store, after: Store, event: Event) {
    && after.events == st.events + [event] && after.table == Apply(st.table, event)
    && (event.kind == DELETED <==> event.row.id !in after.table)
  }

  ghost predicate AtMostOneChange(st: Store, after: Store) {
    after == st || exists event :: OneChange(st, after, event)
  }

  lemma OneChangeKeepsJournal(st: Store, after: Store)
    requires Faithful(st) && AtMostOneChange(st, after) && Consistent(after.table)
    ensures Faithful(after)
  {
    if after != st {
      var event :| OneChange(st, after, event);
      ReplayAppend(st.events, event);
    }
  }

  lemma MutateIsOneChange(st: Store, row: Intent, event: Event, answer: Answer)
    requires Consistent(st.table) && row.id in st.table && SameTerms(st.table[row.id], row)
    requires event.row == row && event.kind != DELETED && answer != Failed
    ensures var r := Mutate(st, row, event, answer);
      && Consistent(r.store.table)
      && (if HashTaken(st.table, row.id, row.txHash) then r == Result(st, Failed)
          else OneChange(st, r.store, event) && r.answer == answer)
  {
    WriteKeepsConsistent(st.table, row);
  }

  /** Each of the three columns is as the patch says, or as it was; nothing else moved. */
  predicate AsPatched(before: Intent, after: Intent, patch: Patch) {
    && SameTerms(before, after) && after.source == before.source
    && after.status == (if patch.status.Some? then patch.status.value else before.status)
    && after.txHash == (if patch.txHash.Some? then patch.txHash.value else before.txHash)
    && after.reference == (if patch.reference.Some? then patch.reference.value else before.reference)
  }

  /** The event of a PATCH names the final status it sets, if any. */
  lemma PatchEventNamesStatus(patch: Patch)
    ensures PatchEvent(patch) != DELETED && PatchEvent(patch) != CREATED
    ensures PatchEvent(patch) == SETTLED <==> patch.status == Some(SUCCEEDED)
    ensures PatchEvent(patch) == REJECTED <==> patch.status == Some(FAILED)
    ensures PatchEvent(patch) == ABANDONED <==> patch.status == Some(CANCELLED)
  {
  }

  /** A row as a request asks for it: nothing paid, nothing reported, a lifetime stamped. */
  predicate AsRequested(row: Intent, q: CreateRequest, id: string, now: int, expiresAt: int) {
    && row.id == id && row.consumer == q.consumer && row.kind == q.kind && row.network == q.network
    && row.source == q.source && row.destination == q.destination && row.amount == q.amount
    && row.asset == q.asset && row.memo == q.memo
    && row.status == PENDING && row.txHash == None && row.reference == None
    && row.createdAt == now && row.expiresAt == Some(expiresAt)
  }

  /** Creation: an idempotent replay or a failed build changes and announces nothing, and a replay answers
      with the key's row; otherwise one row is born as requested and one CREATED event carries it. */
  lemma CreateIsJournaled(st: Store, q: CreateRequest, id: string, now: int, expiresAt: int, builds: bool)
    requires Faithful(st) && ValidRequest(q) && id !in st.table
    ensures var r := Create(st, q, id, now, expiresAt, builds);
      var taken := exists other ::
          other in st.table && st.table[other].consumer == q.consumer && st.table[other].memo == q.memo;
      && Faithful(r.store)
      && (taken ==>
            && r.store == st && r.answer.Created? && r.answer == Created(q.consumer, q.memo, r.answer.id)
            && r.answer.id in st.table
            && st.table[r.answer.id].consumer == q.consumer && st.table[r.answer.id].memo == q.memo)
      && (!taken && q.kind == TX && !builds ==> r == Result(st, Failed))
      && (!taken && (q.kind == PAY || builds) ==>
            && r.answer == Created(q.consumer, q.memo, id) && id in r.store.table
            && AsRequested(r.store.table[id], q, id, now, expiresAt)
            && OneChange(st, r.store, Event(q.consumer, CREATED, r.store.table[id])))
  {
    var row := NewRow(q, id, now, expiresAt);
    InsertKeepsConsistent(st.table, row);
    var r := Create(st, q, id, now, expiresAt, builds);
    if r.store != st {
      assert OneChange(st, r.store, Event(q.consumer, CREATED, row));
      OneChangeKeepsJournal(st, r.store);
    }
  }

  lemma CreateFaithful(st: Store, q: CreateRequest, id: string, now: int, expiresAt: int, builds: bool)
    requires Faithful(st) && ValidRequest(q) && id !in st.table
    ensures Faithful(Create(st, q, id, now, expiresAt, builds).store)
  {
    CreateIsJournaled(st, q, id, now, expiresAt, builds);
  }

  /** An operation that answered Failed left the store alone; one that wrote announced the new row once. */
  lemma PatchIsJournaled(st: Store, consumer: string, id: string, patch: Patch)
    requires Faithful(st)
    ensures var r := PatchIntent(st, consumer, id, patch);
      && Faithful(r.store)
      && (if r.answer == Failed then r.store == st
          else (r.answer == Updated(id) && id in r.store.table && AsPatched(st.table[id], r.store.table[id], patch)
            && OneChange(st, r.store, Event(consumer, PatchEvent(patch), r.store.table[id]))))
      && (r.answer == Failed <==>
            || !(id in st.table && st.table[id].consumer == consumer)
            || (patch.txHash.Some? && HashTaken(st.table, id, patch.txHash.value)))
  {
    var r := PatchIntent(st, consumer, id, patch);
    PatchEventNamesStatus(patch);
    if Owned(st.table, consumer, id) {
      var row := Patched(st.table[id], patch);
      MutateIsOneChange(st, row, Event(consumer, PatchEvent(patch), row), Updated(id));
      HashKept(st.table, id);
      OneChangeKeepsJournal(st, r.store);
    }
  }

  lemma RemoveIsJournaled(st: Store, consumer: string, id: string)
    requires Faithful(st)
    ensures var r := Remove(st, consumer, id);
      && Faithful(r.store)
      && (r.answer == Failed <==>
            !(id in st.table && st.table[id].consumer == consumer) || st.table[id].status == SUCCEEDED)
      && (if r.answer == Failed then r.store == st
          else (r.answer == Removed(id) && OneChange(st, r.store, Event(consumer, DELETED, st.table[id]))))
  {
    var r := Remove(st, consumer, id);
    DeleteKeepsConsistent(st.table, id);
    if r.answer != Failed {
      assert OneChange(st, r.store, Event(consumer, DELETED, st.table[id]));
    }
    OneChangeKeepsJournal(st, r.store);
  }

  lemma SettleIsJournaled(st: Store, consumer: string, id: string, txHash: string, payer: string)
    requires Faithful(st)
    ensures var r := Settle(st, consumer, id, txHash, payer);
      && Faithful(r.store)
      && (r.answer == Failed <==>
            || id !in st.table
            || exists other :: other in st.table && other != id && st.table[other].txHash == Some(txHash))
      && (if r.answer == Failed then r.store == st
          else (r.answer == Outcome(true, SUCCEEDED) && id in r.store.table
            && r.store.table[id].status == SUCCEEDED && r.store.table[id].txHash == Some(txHash)
            && OneChange(st, r.store, Event(consumer, SETTLED, r.store.table[id]))))
  {
    var r := Settle(st, consumer, id, txHash, payer);
    if id in st.table {
      var row := Settled(st.table[id], txHash, SourceToSet(st.table[id].source, payer));
      MutateIsOneChange(st, row, Event(consumer, SETTLED, row), Outcome(true, SUCCEEDED));
    }
    OneChangeKeepsJournal(st, r.store);
  }

  lemma RejectIsJournaled(st: Store, consumer: string, id: string, txHash: string)
    requires Faithful(st)
    ensures var r := Reject(st, consumer, id, txHash);
      && Faithful(r.store)
      && (r.answer == Failed <==> id !in st.table || (txHash != "" && HashTaken(st.table, id, Some(txHash))))
      && (if r.answer == Failed then r.store == st
          else (r.answer == Outcome(false, FAILED) && id in r.store.table
            && r.store.table[id]
                == st.table[id].(status := FAILED, txHash := if txHash == "" then st.table[id].txHash else Some(txHash))
            && OneChange(st, r.store, Event(consumer, REJECTED, r.store.table[id]))))
  {
    var r := Reject(st, consumer, id, txHash);
    if id in st.table {
      var row := Rejected(st.table[id], txHash);
      MutateIsOneChange(st, row, Event(consumer, REJECTED, row), Outcome(false, FAILED));
    }
    OneChangeKeepsJournal(st, r.store);
  }

  /** Expiring never fails on an existing row: it changes no hash. */
  lemma ExpireIsJournaled(st: Store, consumer: string, id: string)
    requires Faithful(st)
    ensures var r := Expire(st, consumer, id);
      && Faithful(r.store)
      && (if id !in st.table then r == Result(st, Failed)
          else (r.answer == Updated(id) && r.store.table == st.table[id := st.table[id].(status := EXPIRED)]
            && OneChange(st, r.store, Event(consumer, UPDATED, st.table[id].(status := EXPIRED)))))
  {
    var r := Expire(st, consumer, id);
    if id in st.table {
      var row := Lapsed(st.table[id]);
      MutateIsOneChange(st, row, Event(consumer, UPDATED, row), Updated(id));
      HashKept(st.table, id);
    }
    OneChangeKeepsJournal(st, r.store);
  }

  lemma ValidateIsJournaled(c: Config, ledger: Ledger, st: Store, consumer: string, id: string, txHash: string)
    requires Faithful(st)
    ensures var r := Validate(c, ledger, st, consumer, id, txHash);
      && Faithful(r.store) && AtMostOneChange(st, r.store)
      && (r.answer == Failed ==> r.store == st)
      && (if !(id in st.table && st.table[id].consumer == consumer) then r == Result(st, Failed)
          else Paid(st.table, id) ==> r == Result(st, Outcome(true, SUCCEEDED)))
  {
    if Owned(st.table, consumer, id) && st.table[id].status != SUCCEEDED {
      match VerifyByHash(ledger, c.pageSize, st.table[id], txHash)
      case Valid(hash, payer) => SettleIsJournaled(st, consumer, id, hash, payer);
      case Invalid(reason) =>
        if reason == FAILED_ON_CHAIN {
          RejectIsJournaled(st, consumer, id, txHash);
        }
    }
  }

  /** What validate does to an unpaid row: it is paid iff the transaction fulfils it (through a record on
      the fetched page) and no other row holds the hash, marked failed iff the transaction failed on-chain
      and the hash is free, and otherwise left as it is, so that a correct hash can still be submitted. */
  lemma ValidateOutcome(c: Config, ledger: Ledger, st: Store, consumer: string, id: string, txHash: string)
    requires Faithful(st) && WellFormedLedger(ledger) && Owned(st.table, consumer, id)
        && st.table[id].status != SUCCEEDED
    requires txHash != ""
    ensures var r := Validate(c, ledger, st, consumer, id, txHash);
      var row, tx, free := st.table[id], Lookup(ledger, st.table[id].network, txHash),
          !HashTaken(st.table, id, Some(txHash));
      && id in r.store.table
      && (Paid(r.store.table, id) <==>
            free && Fulfils(ledger, row, txHash) && FirstMatch(row, FirstPage(tx.value, c.pageSize)).Some?)
      && (free && tx.Some? && !tx.value.successful
          ==> r.store.table[id] == row.(status := FAILED, txHash := Some(txHash)))
      && (!Paid(r.store.table, id) && !(free && tx.Some? && !tx.value.successful) ==> r.store == st)
      && (r.answer == Failed <==>
            && !free && tx.Some?
            && (!tx.value.successful || VerifyByHash(ledger, c.pageSize, row, txHash).Valid?))
      && (r.answer != Failed ==> r.answer == Outcome(Paid(r.store.table, id), r.store.table[id].status))
  {
    var row := st.table[id];
    LookupAcceptsIff(ledger, c.pageSize, row, txHash);
    var v := VerifyByHash(ledger, c.pageSize, row, txHash);
    if v.Valid? {
      SettleIsJournaled(st, consumer, id, v.txHash, v.payer);
    } else if v.reason == FAILED_ON_CHAIN {
      RejectIsJournaled(st, consumer, id, txHash);
    }
  }

  /** Settlement records the payer only where no source is known, and rewrites nothing but status, hash
      and that. */
  lemma SettleKeepsKnownSource(st: Store, consumer: string, id: string, txHash: string, payer: string)
    requires Faithful(st) && id in st.table && !HashTaken(st.table, id, Some(txHash))
    ensures var before, after := st.table[id], Settle(st, consumer, id, txHash, payer).store.table[id];
      && SameTerms(before, after) && after.reference == before.reference
      && (before.source.Some? && before.source.value != "" ==> after.source == before.source)
      && ((before.source.None? || before.source.value == "") && payer != "" ==> after.source == Some(payer))
      && (payer == "" ==> after.source == before.source)
  {
    SettleIsJournaled(st, consumer, id, txHash, payer);
  }

  /** Whatever the observer settles on is a fulfilling transaction. */
  lemma ObservedFulfils(c: Config, ledger: Ledger, row: Intent)
    requires WellFormedLedger(ledger)
    ensures var v := Observed(c, ledger, row); v.Valid? ==> Fulfils(ledger, row, v.txHash)
  {
    if row.txHash.Some? && row.txHash.value != "" {
      LookupAcceptsIff(ledger, c.pageSize, row, row.txHash.value);
    } else {
      ScanSound(ledger, row, RecentPage(ledger, row.network, row.destination, c.scanLimit));
    }
  }

  lemma {:induction false} ExpireAllFaithful(st: Store, rows: seq<Intent>, failing: set<string>)
    requires Faithful(st)
    ensures Faithful(ExpireAll(st, rows, failing))
  {
    if rows != [] {
      var last := rows[|rows| - 1];
      ExpireAllFaithful(st, rows[..|rows| - 1], failing);
      ExpireIsJournaled(ExpireAll(st, rows[..|rows| - 1], failing), last.consumer, last.id);
    }
  }

  lemma ReconcileIsJournaled(c: Config, ledger: Ledger, st: Store, row: Intent)
    requires Faithful(st)
    ensures Faithful(Reconcile(c, ledger, st, row)) && AtMostOneChange(st, Reconcile(c, ledger, st, row))
  {
    var r := Observed(c, ledger, row);
    if r.Valid? {
      SettleIsJournaled(st, row.consumer, row.id, r.txHash, r.payer);
    }
  }

  lemma {:induction false} ReconcileAllFaithful(c: Config, ledger: Ledger, st: Store, rows: seq<Intent>,
                                                down: set<string>)
    requires Faithful(st)
    ensures Faithful(ReconcileAll(c, ledger, st, rows, down))
  {
    if rows != [] {
      ReconcileAllFaithful(c, ledger, st, rows[..|rows| - 1], down);
      ReconcileIsJournaled(c, ledger, ReconcileAll(c, ledger, st, rows[..|rows| - 1], down), rows[|rows| - 1]);
    }
  }

  lemma EffectFaithful(c: Config, st: Store, op: Operation)
    requires Faithful(st) && Legal(c, st, op)
    ensures Faithful(EffectOf(c, st, op))
  {
    match op
    case CreateOp(q, id, now, expiresAt, builds) => CreateIsJournaled(st, q, id, now, expiresAt, builds);
    case PatchOp(consumer, id, patch) => PatchIsJournaled(st, consumer, id, patch);
    case RemoveOp(consumer, id) => RemoveIsJournaled(st, consumer, id);
    case ValidateOp(ledger, consumer, id, txHash) => ValidateIsJournaled(c, ledger, st, consumer, id, txHash);
    case TickOp(ledger, cycle) =>
      ExpireAllFaithful(st, Rows(st.table, cycle.overdue), cycle.failing);
      var mid := Expired(st, cycle);
      ReconcileAllFaithful(c, ledger, mid, Rows(mid.table, cycle.pending), cycle.down);
  }

  /** In every serial run, replaying the events so far rebuilds the table exactly. */
  lemma {:induction false} EventsRebuildTable(c: Config, ops: seq<Operation>, stores: seq<Store>, i: nat)
    requires SerialRun(c, ops, stores) && i <= |ops|
    ensures Replay(stores[i].events) == stores[i].table && Consistent(stores[i].table)
  {
    if i == 0 {
      assert Faithful(stores[0]);
    } else {
      EventsRebuildTable(c, ops, stores, i - 1);
      EffectFaithful(c, stores[i - 1], ops[i - 1]);
    }
  }

  // ── Paid rows stay paid ────────────────────────────────────────────────────

  ghost predicate KeepsPaid(t: Table, after: Table) {
    forall id | Paid(t, id) :: Paid(after, id)
  }

  ghost predicate ExactlyLapsed(t: Table, after: Table, ids: seq<string>, failing: set<string>) {
    && after.Keys == t.Keys
    && forall id | id in t :: after[id] == if id in ids && id !in failing then Lapsed(t[id]) else t[id]
  }

  lemma LapseOneMore(t: Table, mid: Table, after: Table, ids: seq<string>, failing: set<string>)
    requires ids != [] && Distinct(ids) && ids[|ids| - 1] in t
    requires ExactlyLapsed(t, mid, ids[..|ids| - 1], failing)
    requires var last := ids[|ids| - 1];
      after == if last in failing then mid else mid[last := Lapsed(mid[last])]
    ensures ExactlyLapsed(t, after, ids, failing)
  {
    assert ids == ids[..|ids| - 1] + [ids[|ids| - 1]];
  }

  /** A cycle's first loop marks expired the rows it selected and whose calls went through, and
      changes nothing else. */
  lemma {:induction false} ExpireAllExact(st: Store, ids: seq<string>, rows: seq<Intent>, failing: set<string>)
    requires Faithful(st) && Distinct(ids) && |rows| == |ids|
    requires forall i | 0 <= i < |ids| :: ids[i] in st.table && rows[i] == st.table[ids[i]]
    ensures ExactlyLapsed(st.table, ExpireAll(st, rows, failing).table, ids, failing)
  {
    if rows != [] {
      var n := |rows| - 1;
      ExpireAllExact(st, ids[..n], rows[..n], failing);
      var done := ExpireAll(st, rows[..n], failing);
      ExpireAllFaithful(st, rows[..n], failing);
      ExpireIsJournaled(done, rows[n].consumer, ids[n]);
      assert rows[n].id == ids[n];
      LapseOneMore(st.table, done.table, ExpireAll(st, rows, failing).table, ids, failing);
    }
  }

  lemma TickKeepsPaid(c: Config, ledger: Ledger, st: Store, cycle: Cycle)
    requires Faithful(st) && LegalCycle(c, st, cycle)
    ensures KeepsPaid(st.table, Tick(c, ledger, st, cycle).table)
  {
    hide ExpireAll, ReconcileAll, Faithful;
    ExpireAllExact(st, cycle.overdue, Rows(st.table, cycle.overdue), cycle.failing);
    var mid := Expired(st, cycle);
    forall id | Paid(st.table, id) ensures Paid(mid.table, id) {
      assert id !in OverdueIds(st.table, cycle.now);
    }
    ReconcileAllKeepsPaid(c, ledger, mid, Rows(mid.table, cycle.pending), cycle.down);
  }

  lemma ReconcileKeepsPaid(c: Config, ledger: Ledger, st: Store, row: Intent)
    ensures KeepsPaid(st.table, Reconcile(c, ledger, st, row).table)
  {
  }

  lemma {:induction false} ReconcileAllKeepsPaid(c: Config, ledger: Ledger, st: Store, rows: seq<Intent>,
                                                 down: set<string>)
    ensures KeepsPaid(st.table, ReconcileAll(c, ledger, st, rows, down).table)
  {
    if rows != [] {
      ReconcileAllKeepsPaid(c, ledger, st, rows[..|rows| - 1], down);
      ReconcileKeepsPaid(c, ledger, ReconcileAll(c, ledger, st, rows[..|rows| - 1], down), rows[|rows| - 1]);
    }
  }

  lemma CreateKeepsPaid(st: Store, q: CreateRequest, id: string, now: int, expiresAt: int, builds: bool)
    requires id !in st.table
    ensures KeepsPaid(st.table, Create(st, q, id, now, expiresAt, builds).store.table)
  {
  }

  lemma MetadataKeepsPaid(st: Store, consumer: string, id: string, patch: Patch)
    requires patch.status == None && Consistent(st.table)
    ensures KeepsPaid(st.table, PatchIntent(st, consumer, id, patch).store.table)
  {
  }

  lemma RemoveKeepsPaid(st: Store, consumer: string, id: string)
    ensures KeepsPaid(st.table, Remove(st, consumer, id).store.table)
  {
  }

  lemma ValidateKeepsPaid(c: Config, ledger: Ledger, st: Store, consumer: string, id: string, txHash: string)
    requires Consistent(st.table)
    ensures KeepsPaid(st.table, Validate(c, ledger, st, consumer, id, txHash).store.table)
  {
    hide VerifyByHash, UniqueKeys, UniqueHashes, WellFormedRow, HashTaken;
  }

  ghost predicate PatchesStatus(op: Operation) { op.PatchOp? && op.patch.status.Some? }

  lemma EffectKeepsPaid(c: Config, st: Store, op: Operation)
    requires Faithful(st) && Legal(c, st, op) && !PatchesStatus(op)
    ensures KeepsPaid(st.table, EffectOf(c, st, op).table)
  {
    match op
    case TickOp(ledger, cycle) => TickKeepsPaid(c, ledger, st, cycle);
    case ValidateOp(ledger, consumer, id, txHash) => ValidateKeepsPaid(c, ledger, st, consumer, id, txHash);
    case PatchOp(consumer, id, patch) => MetadataKeepsPaid(st, consumer, id, patch);
    case RemoveOp(consumer, id) => RemoveKeepsPaid(st, consumer, id);
    case CreateOp(q, id, now, expiresAt, builds) => CreateKeepsPaid(st, q, id, now, expiresAt, builds);
  }

  /** In every serial run, a paid row stays in the table as SUCCEEDED through creations, metadata
      patches, deletions, validations and observer cycles. */
  lemma {:induction false} PaidIsAbsorbing(c: Config, ops: seq<Operation>, stores: seq<Store>, i: nat, j: nat,
                                           id: string)
    requires SerialRun(c, ops, stores) && i <= j <= |ops| && Paid(stores[i].table, id)
    requires forall k | i <= k < j :: !PatchesStatus(ops[k])
    ensures Paid(stores[j].table, id)
  {
    hide EffectOf, Legal, Replay, Consistent, PatchesStatus;
    if i < j {
      PaidIsAbsorbing(c, ops, stores, i, j - 1, id);
      EventsRebuildTable(c, ops, stores, j - 1);
      EffectKeepsPaid(c, stores[j - 1], ops[j - 1]);
    }
  }
}
