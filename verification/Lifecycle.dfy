/** The service, the verifier and the observer as one concurrent system. Every request in flight and
    the observer's cycle are processes; each step runs one process from one `await` to the next, in any
    order. A run is a list of actions. */
module Lifecycle {
  import opened Wrappers
  import opened Intents
  import opened Verifier
  import opened Assets
  import opened Memos

  /** Who settles an intent: a validate request, or the observer with the rest of its batch. */
  datatype Caller = Api(consumer: string) | Observer(rest: seq<Intent>)

  datatype Answer =
    | Created(consumer: string, memo: string, id: string)
    | Updated(id: string)
    | Removed(id: string)
    | Outcome(valid: bool, status: Status)
    | Failed
    | CycleEnded

  /** Where a process stands: the call it is about to make, with the locals it still needs. */
  datatype Process =
    // createTx and createPay
    | FindKey(request: CreateRequest)
    | LoadAccount(request: CreateRequest)
    | InsertRow(request: CreateRequest, expiresAt: int)
    | RefetchKey(request: CreateRequest)
    // update
    | AuthorizePatch(consumer: string, id: string, patch: Patch)
    | WritePatch(consumer: string, id: string, patch: Patch)
    // remove
    | AuthorizeRemoval(consumer: string, id: string)
    | CheckRemoval(consumer: string, id: string)
    | DeleteRow(consumer: string, id: string)
    // validate
    | LoadIntent(consumer: string, id: string, txHash: string)
    // verifyByHash and findMatchingPayment, on a snapshot of the row
    | FetchTransaction(intent: Intent, txHash: string, caller: Caller)
    | FetchPayments(intent: Intent, tx: Transaction, caller: Caller)
    | FetchPage(intent: Intent, caller: Caller)
    | FetchOwner(intent: Intent, page: seq<Operation>, caller: Caller)
    // markSucceeded, markFailed, markExpired
    | ReadSource(intent: Intent, txHash: string, payer: string, caller: Caller)
    | WriteSettled(intent: Intent, txHash: string, setSource: Option<string>, caller: Caller)
    | WriteRejected(intent: Intent, txHash: string, consumer: string)
    | WriteExpired(batch: seq<Intent>)
    // tick
    | QueryOverdue
    | QueryPending
    // the synchronous emit that follows a successful write
    | Emit(event: Event, next: Process)
    | Done(answer: Answer)

  datatype System = System(
    table: Table,
    events: seq<Event>,
    ledger: Ledger,
    clock: int,
    running: bool,
    processes: seq<Process>,
    // History: every row as created, and the ids whose SUCCEEDED is a PATCH's word.
    born: map<string, Intent>,
    patched: set<string>)

  /** The configuration the processes read. */
  datatype Config = Config(ttl: int, batchSize: nat, pageSize: nat, scanLimit: nat)

  /** What a step cannot know: the id the database draws, the rows an unordered query picks, a failure. */
  datatype Choice = Proceed | Fresh(id: string) | Batch(ids: seq<string>) | Fail

  datatype Action =
    | Arrive(request: Process)
    | TimerFires
    | Advance(p: nat, choice: Choice)
    | LedgerGrows(tx: Transaction)
    | TimePasses(ms: nat)

  // ── Steps ──────────────────────────────────────────────────────────────────

  predicate Arrival(q: Process) {
    match q
    case FindKey(request) => ValidRequest(request)
    case AuthorizePatch(_, _, _) => true
    case AuthorizeRemoval(_, _) => true
    case LoadIntent(_, _, _) => true
    case _ => false
  }

  /** The next row of the observer's pending batch, or the end of the cycle. */
  function NextPending(rest: seq<Intent>): Process {
    if rest == [] then Done(CycleEnded)
    else if rest[0].txHash.Some? && rest[0].txHash.value != "" then
      FetchTransaction(rest[0], rest[0].txHash.value, Observer(rest[1..]))
    else FetchPage(rest[0], Observer(rest[1..]))
  }

  function NextExpired(batch: seq<Intent>): Process {
    if batch == [] then QueryPending else WriteExpired(batch)
  }

  /** Where a process goes when the call it waits for is rejected. */
  function AfterFailure(q: Process): Process {
    match q
    case WriteExpired(batch) => if batch == [] then QueryPending else NextExpired(batch[1..])
    case QueryOverdue => Done(CycleEnded)
    case QueryPending => Done(CycleEnded)
    case FetchTransaction(_, _, Observer(rest)) => NextPending(rest)
    case FetchPayments(_, _, Observer(rest)) => NextPending(rest)
    case FetchPage(_, Observer(rest)) => NextPending(rest)
    case FetchOwner(_, _, Observer(rest)) => NextPending(rest)
    case ReadSource(_, _, _, Observer(rest)) => NextPending(rest)
    case WriteSettled(_, _, _, Observer(rest)) => NextPending(rest)
    case _ => Done(Failed)
  }

  /** Verification ended without a match. */
  function AfterInvalid(intent: Intent, txHash: string, reason: Reason, caller: Caller): Process {
    match caller
    case Observer(rest) => NextPending(rest)
    case Api(consumer) =>
      if reason == FAILED_ON_CHAIN then WriteRejected(intent, txHash, consumer)
      else Done(Outcome(false, intent.status))
  }

  function AfterSettled(caller: Caller): Process {
    match caller
    case Observer(rest) => NextPending(rest)
    case Api(_) => Done(Outcome(true, SUCCEEDED))
  }

  function Owner(intent: Intent, caller: Caller): string {
    if caller.Api? then caller.consumer else intent.consumer
  }

  /** The scan goes on to the first record that matches, whose transaction it must fetch. */
  function SeekMatch(intent: Intent, page: seq<Operation>, caller: Caller): Process {
    if page == [] then AfterInvalid(intent, "", NOT_YET, caller)
    else if PaymentMatches(intent, page[0]) then FetchOwner(intent, page, caller)
    else SeekMatch(intent, page[1..], caller)
  }

  ghost predicate Distinct(ids: seq<string>) {
    forall i, j | 0 <= i < j < |ids| :: ids[i] != ids[j]
  }

  function Min(a: nat, b: nat): nat { if a < b then a else b }

  /** `take` rows of the eligible ones, in whatever order the database returns them. */
  ghost predicate AnyBatch(t: Table, eligible: set<string>, take: nat, ids: seq<string>) {
    && Distinct(ids) && (forall id | id in ids :: id in eligible && id in t)
    && |ids| == Min(take, |eligible|)
  }

  ghost function OverdueIds(t: Table, now: int): set<string> {
    set id | id in t && Overdue(t[id], now)
  }

  ghost function PendingIds(t: Table): set<string> {
    set id | id in t && t[id].status == PENDING
  }

  /** `take` pending rows, oldest first. */
  ghost predicate OldestBatch(t: Table, take: nat, ids: seq<string>) {
    && AnyBatch(t, PendingIds(t), take, ids)
    && (forall i, j | 0 <= i < j < |ids| :: t[ids[i]].createdAt <= t[ids[j]].createdAt)
    && forall i, other | 0 <= i < |ids| && other in PendingIds(t) && other !in ids ::
         t[ids[i]].createdAt <= t[other].createdAt
  }

  function Rows(t: Table, ids: seq<string>): seq<Intent>
    requires forall id | id in ids :: id in t
  {
    seq(|ids|, i requires 0 <= i < |ids| => t[ids[i]])
  }

  /** A step's effect on what is shared; the process moves to `next`. */
  datatype Effect = Effect(table: Table, born: map<string, Intent>, patched: set<string>, next: Process)

  ghost predicate Enabled(c: Config, s: System, q: Process, choice: Choice) {
    match choice
    case Fail => !q.Emit? && !q.Done?
    case Fresh(id) => q.InsertRow? && id !in s.born
    case Batch(ids) =>
      || (q.QueryOverdue? && AnyBatch(s.table, OverdueIds(s.table, s.clock), c.batchSize, ids))
      || (q.QueryPending? && OldestBatch(s.table, c.batchSize, ids))
    case Proceed => !q.InsertRow? && !q.QueryOverdue? && !q.QueryPending? && !q.Done?
                    && (q.WriteExpired? ==> q.batch != []) && (q.FetchOwner? ==> q.page != [])
  }

  /** The steps that call `update`. */
  predicate Updates(q: Process) {
    q.WritePatch? || q.WriteSettled? || q.WriteRejected? || (q.WriteExpired? && q.batch != [])
  }

  predicate Writes(q: Process) { q.InsertRow? || q.DeleteRow? || Updates(q) }

  /** The row an update is for. */
  function Target(q: Process): string
    requires Updates(q)
  {
    match q
    case WritePatch(_, id, _) => id
    case WriteSettled(intent, _, _, _) => intent.id
    case WriteRejected(intent, _, _) => intent.id
    case WriteExpired(batch) => batch[0].id
  }

  /** The row as an update leaves it. */
  function Rewritten(q: Process, row: Intent): Intent
    requires Updates(q)
  {
    match q
    case WritePatch(_, _, patch) => Patched(row, patch)
    case WriteSettled(_, txHash, setSource, _) => Settled(row, txHash, setSource)
    case WriteRejected(_, txHash, _) => Rejected(row, txHash)
    case WriteExpired(_) => Lapsed(row)
  }

  /** The event of an update that left this row. */
  function Announcement(q: Process, row: Intent): Event
    requires Updates(q)
  {
    match q
    case WritePatch(consumer, _, patch) => Event(consumer, PatchEvent(patch), row)
    case WriteSettled(intent, _, _, caller) => Event(Owner(intent, caller), SETTLED, row)
    case WriteRejected(_, _, consumer) => Event(consumer, REJECTED, row)
    case WriteExpired(batch) => Event(batch[0].consumer, UPDATED, row)
  }

  function AfterUpdate(q: Process): Process
    requires Updates(q)
  {
    match q
    case WritePatch(_, id, _) => Done(Updated(id))
    case WriteSettled(_, _, _, caller) => AfterSettled(caller)
    case WriteRejected(_, _, _) => Done(Outcome(false, FAILED))
    case WriteExpired(batch) => NextExpired(batch[1..])
  }

  /** The rows whose SUCCEEDED is a PATCH's word, after an update that left this row. */
  function Marked(q: Process, row: Intent, patched: set<string>): set<string>
    requires Updates(q)
  {
    if q.WritePatch? && row.status == SUCCEEDED && (q.patch.status.Some? || q.patch.txHash.Some?) then
      patched + {row.id}
    else if q.WriteSettled? then patched - {row.id}
    else patched
  }

  /** A rejected call: no such row, or a unique violation. */
  function Refused(s: System, q: Process): Effect { Effect(s.table, s.born, s.patched, AfterFailure(q)) }

  /** One `update` call: on success the row is written and its event is due. */
  ghost function Updating(s: System, q: Process): Effect
    requires Updates(q)
  {
    if Target(q) !in s.table then Refused(s, q)
    else
      var row := Rewritten(q, s.table[Target(q)]);
      if row.id != Target(q) || Write(s.table, row).None? then Refused(s, q)
      else Effect(Write(s.table, row).value, s.born, Marked(q, row, s.patched),
                  Emit(Announcement(q, row), AfterUpdate(q)))
  }

  ghost function Inserted(s: System, request: CreateRequest, expiresAt: int, id: string): Effect {
    var row := NewRow(request, id, s.clock, expiresAt);
    if id !in s.table && Insert(s.table, row).Some? then
      Effect(Insert(s.table, row).value, s.born[id := row], s.patched,
             Emit(Event(request.consumer, CREATED, row), Done(Created(request.consumer, request.memo, id))))
    else
      Effect(s.table, s.born, s.patched, RefetchKey(request))
  }

  function Deleting(s: System, q: Process): Effect
    requires q.DeleteRow?
  {
    if q.id !in s.table then Refused(s, q)
    else Effect(Delete(s.table, q.id), s.born, s.patched,
                Emit(Event(q.consumer, DELETED, s.table[q.id]), Done(Removed(q.id))))
  }

  /** The steps that write. */
  ghost function WriteMove(s: System, q: Process, choice: Choice): Effect
    requires Writes(q) && (q.InsertRow? ==> choice.Fresh?)
  {
    if q.InsertRow? then Inserted(s, q.request, q.expiresAt, choice.id)
    else if q.DeleteRow? then Deleting(s, q)
    else Updating(s, q)
  }

  /** The steps of a request that only read. */
  ghost function RequestMove(c: Config, s: System, q: Process): Process {
    match q
    case FindKey(request) =>
      var existing := FindByMemo(s.table, request.consumer, request.memo);
      if existing.Some? then Done(Created(request.consumer, request.memo, existing.value.id))
      else if request.kind == TX then LoadAccount(request)
      else InsertRow(request, s.clock + c.ttl)
    case LoadAccount(request) => InsertRow(request, s.clock + c.ttl)
    case RefetchKey(request) =>
      var existing := FindByMemo(s.table, request.consumer, request.memo);
      if existing.Some? then Done(Created(request.consumer, request.memo, existing.value.id)) else Done(Failed)
    case AuthorizePatch(consumer, id, patch) =>
      if Owned(s.table, consumer, id) then WritePatch(consumer, id, patch) else Done(Failed)
    case AuthorizeRemoval(consumer, id) =>
      if Owned(s.table, consumer, id) then CheckRemoval(consumer, id) else Done(Failed)
    case CheckRemoval(consumer, id) =>
      if id in s.table && s.table[id].status == SUCCEEDED then Done(Failed) else DeleteRow(consumer, id)
    case LoadIntent(consumer, id, txHash) =>
      if !Owned(s.table, consumer, id) then Done(Failed)
      else if s.table[id].status == SUCCEEDED then Done(Outcome(true, SUCCEEDED))
      else FetchTransaction(s.table[id], txHash, Api(consumer))
    case _ => q
  }

  predicate Verifies(q: Process) {
    q.FetchTransaction? || q.FetchPayments? || q.FetchPage? || q.FetchOwner? || q.ReadSource?
  }

  /** The steps of a verification, by hash or by scanning, up to the settling write. */
  function VerifyMove(c: Config, s: System, q: Process): Process
    requires q.FetchOwner? ==> q.page != []
  {
    match q
    case FetchTransaction(intent, txHash, caller) =>
      var tx := Lookup(s.ledger, intent.network, txHash);
      if tx.None? then AfterInvalid(intent, txHash, NOT_FOUND, caller)
      else if !tx.value.successful then AfterInvalid(intent, txHash, FAILED_ON_CHAIN, caller)
      else if !MemoMatches(intent, tx.value.memoType, tx.value.memo) then
        AfterInvalid(intent, txHash, MEMO_MISMATCH, caller)
      else FetchPayments(intent, tx.value, caller)
    case FetchPayments(intent, tx, caller) =>
      var op := FirstMatch(intent, FirstPage(tx, c.pageSize));
      if op.None? then AfterInvalid(intent, tx.hash, NO_PAYMENT, caller)
      else ReadSource(intent, tx.hash, op.value.from, caller)
    case FetchPage(intent, caller) =>
      SeekMatch(intent, RecentPage(s.ledger, intent.network, intent.destination, c.scanLimit), caller)
    case FetchOwner(intent, page, caller) =>
      var tx := Lookup(s.ledger, intent.network, page[0].txHash);
      if tx.None? then AfterFailure(q)
      else if !tx.value.successful || !MemoMatches(intent, tx.value.memoType, tx.value.memo) then
        SeekMatch(intent, page[1..], caller)
      else if page[0].txHash == "" then AfterInvalid(intent, "", NOT_YET, caller)
      else ReadSource(intent, page[0].txHash, page[0].from, caller)
    case ReadSource(intent, txHash, payer, caller) =>
      var source := if intent.id in s.table then s.table[intent.id].source else None;
      WriteSettled(intent, txHash, SourceToSet(source, payer), caller)
    case _ => q
  }

  ghost function ReadMove(c: Config, s: System, q: Process, choice: Choice): Process
    requires Enabled(c, s, q, choice) && !Writes(q) && !choice.Fail?
  {
    if q.Emit? then q.next
    else if q.QueryOverdue? then NextExpired(Rows(s.table, choice.ids))
    else if q.QueryPending? then NextPending(Rows(s.table, choice.ids))
    else if Verifies(q) then VerifyMove(c, s, q)
    else RequestMove(c, s, q)
  }

  ghost function Move(c: Config, s: System, q: Process, choice: Choice): Effect
    requires Enabled(c, s, q, choice)
  {
    if choice.Fail? then Effect(s.table, s.born, s.patched, AfterFailure(q))
    else if Writes(q) then WriteMove(s, q, choice)
    else Effect(s.table, s.born, s.patched, ReadMove(c, s, q, choice))
  }

  /** The state after a step; an action that is not enabled changes nothing. */
  ghost function Step(c: Config, s: System, action: Action): System {
    match action
    case Arrive(request) =>
      if Arrival(request) then s.(processes := s.processes + [request]) else s
    case TimerFires =>
      if s.running then s else s.(running := true, processes := s.processes + [QueryOverdue])
    case LedgerGrows(tx) =>
      if WellFormedLedger(s.ledger + [tx]) then s.(ledger := s.ledger + [tx]) else s
    case TimePasses(ms) => s.(clock := s.clock + ms)
    case Advance(p, choice) =>
      if p < |s.processes| && Enabled(c, s, s.processes[p], choice) then
        var q := s.processes[p];
        var e := Move(c, s, q, choice);
        s.(table := e.table, born := e.born, patched := e.patched,
           events := if q.Emit? then s.events + [q.event] else s.events,
           running := s.running && e.next != Done(CycleEnded),
           processes := s.processes[p := e.next])
      else s
  }

  const START := System(map[], [], [], 0, false, [], map[], {})

  /** The state a run leads to. */
  ghost function Run(c: Config, actions: seq<Action>): System {
    if actions == [] then START
    else Step(c, Run(c, actions[..|actions| - 1]), actions[|actions| - 1])
  }

  lemma RunNext(c: Config, actions: seq<Action>)
    requires actions != []
    ensures Run(c, actions) == Step(c, Run(c, actions[..|actions| - 1]), actions[|actions| - 1])
  {
  }

  lemma Append(c: Config, actions: seq<Action>, action: Action)
    ensures Run(c, actions + [action]) == Step(c, Run(c, actions), action)
  {
    assert (actions + [action])[..|actions|] == actions;
  }
}
