/** The payment_intent table, its two unique constraints, and the event log. Each function that
    returns a new table is one atomic database call; None is a unique violation. */
module Intents {
  import opened Wrappers
  import opened Money
  import opened Assets
  import opened Memos

  datatype Status = PENDING | SUBMITTED | SUCCEEDED | FAILED | CANCELLED | EXPIRED

  datatype Kind = TX | PAY

  datatype Network = PUBLIC | TESTNET

  /** The kind of API key, where the gateway forwards it. */
  datatype Environment = DEV | PROD

  /** A row. The consumer is named by its gateway username; the derived xdr and uri are left out. */
  datatype Intent = Intent(
    id: string,
    consumer: string,
    kind: Kind,
    network: Network,
    source: Option<string>,
    destination: string,
    amount: Option<string>,
    asset: Asset,
    memo: string,
    status: Status,
    txHash: Option<string>,
    reference: Option<string>,
    createdAt: int,
    expiresAt: Option<int>)

  type Table = map<string, Intent>

  datatype EventKind = CREATED | UPDATED | SETTLED | REJECTED | ABANDONED | DELETED

  /** What the event bus carries: the owner, the kind of change and the row after it (before it,
      for a deletion). SETTLED, REJECTED and ABANDONED are PAYMENT_INTENT_SUCCEEDED, _FAILED and
      _CANCELLED. */
  datatype Event = Event(consumer: string, kind: EventKind, row: Intent)

  /** `statusEvent` */
  function StatusEvent(status: Status): EventKind {
    match status
    case SUCCEEDED => SETTLED
    case FAILED => REJECTED
    case CANCELLED => ABANDONED
    case _ => UPDATED
  }

  /** The columns a transaction is matched against, and those no operation ever rewrites. */
  predicate SameTerms(a: Intent, b: Intent) {
    && a.id == b.id && a.consumer == b.consumer && a.kind == b.kind && a.network == b.network
    && a.destination == b.destination && a.amount == b.amount && a.asset == b.asset
    && a.memo == b.memo && a.createdAt == b.createdAt && a.expiresAt == b.expiresAt
  }

  predicate HasKey(row: Intent, consumer: string, memo: string) {
    row.consumer == consumer && row.memo == memo
  }

  // ── Unique constraints ─────────────────────────────────────────────────────

  ghost predicate UniqueKeys(t: Table) {
    forall i, j | i in t && j in t && i != j :: !HasKey(t[j], t[i].consumer, t[i].memo)
  }

  ghost predicate UniqueHashes(t: Table) {
    forall i, j | i in t && j in t && i != j && t[i].txHash.Some? :: t[i].txHash != t[j].txHash
  }

  ghost predicate Keyed(t: Table) {
    forall id | id in t :: t[id].id == id
  }

  /** What creation writes and nothing changes: a storable asset, a valid memo, an accepted amount
      and an expiry. */
  predicate WellFormedRow(row: Intent) {
    Stored(row.asset) && MemoAccepted(row.memo) && Accepted(row.amount) && row.expiresAt.Some?
  }

  ghost predicate Consistent(t: Table) {
    && Keyed(t) && UniqueKeys(t) && UniqueHashes(t)
    && forall id | id in t :: WellFormedRow(t[id])
  }

  // ── Database calls ─────────────────────────────────────────────────────────

  ghost predicate KeyTaken(t: Table, consumer: string, memo: string) {
    exists id :: id in t && HasKey(t[id], consumer, memo)
  }

  ghost predicate HashTaken(t: Table, id: string, txHash: Option<string>) {
    txHash.Some? && exists j :: j in t && j != id && t[j].txHash == txHash
  }

  /** `findUnique` on (consumer, memo) */
  ghost function FindByMemo(t: Table, consumer: string, memo: string): (r: Option<Intent>)
    ensures r.None? <==> !KeyTaken(t, consumer, memo)
    ensures r.Some? ==> exists id :: id in t && t[id] == r.value && HasKey(r.value, consumer, memo)
  {
    if KeyTaken(t, consumer, memo) then
      var id :| id in t && HasKey(t[id], consumer, memo);
      Some(t[id])
    else
      None
  }

  /** `findFirst` by id and owner */
  predicate Owned(t: Table, consumer: string, id: string) {
    id in t && t[id].consumer == consumer
  }

  /** `create` */
  ghost function Insert(t: Table, row: Intent): Option<Table>
    requires row.id !in t
  {
    if KeyTaken(t, row.consumer, row.memo) || HashTaken(t, row.id, row.txHash) then None
    else Some(t[row.id := row])
  }

  /** `update` of the row with this id */
  ghost function Write(t: Table, row: Intent): Option<Table>
    requires row.id in t
  {
    if HashTaken(t, row.id, row.txHash) then None else Some(t[row.id := row])
  }

  /** `delete` */
  function Delete(t: Table, id: string): Table { t - {id} }

  lemma InsertKeepsConsistent(t: Table, row: Intent)
    requires Consistent(t) && row.id !in t && WellFormedRow(row)
    ensures Insert(t, row).Some? ==> Consistent(Insert(t, row).value)
    ensures row.txHash == None ==> (Insert(t, row).None? <==> KeyTaken(t, row.consumer, row.memo))
  {
  }

  lemma WriteKeepsConsistent(t: Table, row: Intent)
    requires Consistent(t) && row.id in t && SameTerms(t[row.id], row)
    ensures Write(t, row).Some? ==> Consistent(Write(t, row).value)
  {
    hide Stored, MemoAccepted, Accepted;
  }

  lemma DeleteKeepsConsistent(t: Table, id: string)
    requires Consistent(t)
    ensures Consistent(Delete(t, id))
  {
  }

  // ── New column values ──────────────────────────────────────────────────────

  /** A validated request to create an intent. */
  datatype CreateRequest = CreateRequest(
    consumer: string,
    kind: Kind,
    network: Network,
    source: Option<string>,
    destination: string,
    amount: Option<string>,
    asset: Asset,
    memo: string)

  predicate ValidRequest(q: CreateRequest) {
    Stored(q.asset) && MemoAccepted(q.memo) && Accepted(q.amount)
  }

  function NewRow(q: CreateRequest, id: string, createdAt: int, expiresAt: int): Intent {
    Intent(id, q.consumer, q.kind, q.network, q.source, q.destination, q.amount, q.asset, q.memo,
           PENDING, None, None, createdAt, Some(expiresAt))
  }

  lemma NewRowIsWellFormed(q: CreateRequest, id: string, createdAt: int, expiresAt: int)
    requires ValidRequest(q)
    ensures WellFormedRow(NewRow(q, id, createdAt, expiresAt))
  {
  }

  /** The body of a PATCH. An absent field is left alone; a null hash or reference clears the column. */
  datatype Patch = Patch(status: Option<Status>, txHash: Option<Option<string>>, reference: Option<Option<string>>)

  function Patched(row: Intent, patch: Patch): Intent {
    row.(status := if patch.status.Some? then patch.status.value else row.status,
         txHash := if patch.txHash.Some? then patch.txHash.value else row.txHash,
         reference := if patch.reference.Some? then patch.reference.value else row.reference)
  }

  function PatchEvent(patch: Patch): EventKind {
    if patch.status.Some? then StatusEvent(patch.status.value) else UPDATED
  }

  /** A PATCH that cannot make a row's SUCCEEDED its own word: it sets another status, or touches neither
      status nor hash. */
  predicate SafePatch(patch: Patch) {
    if patch.status.Some? then patch.status.value != SUCCEEDED else patch.txHash.None?
  }

  /** The payer is recorded only where no source is known. */
  function SourceToSet(source: Option<string>, payer: string): Option<string> {
    if payer != "" && (source.None? || source.value == "") then Some(payer) else None
  }

  function Settled(row: Intent, txHash: string, setSource: Option<string>): Intent {
    row.(status := SUCCEEDED, txHash := Some(txHash),
         source := if setSource.Some? then setSource else row.source)
  }

  function Rejected(row: Intent, txHash: string): Intent {
    row.(status := FAILED, txHash := if txHash == "" then row.txHash else Some(txHash))
  }

  function Lapsed(row: Intent): Intent { row.(status := EXPIRED) }

  /** Unpaid and past its lifetime: what the observer's first query selects. */
  predicate Overdue(row: Intent, now: int) {
    (row.status == PENDING || row.status == SUBMITTED) && row.expiresAt.Some? && row.expiresAt.value < now
  }

  // ── The event log as a journal ─────────────────────────────────────────────

  /** Replaying one event: upsert by id, remove on DELETED. */
  function Apply(t: Table, event: Event): Table {
    if event.kind == DELETED then Delete(t, event.row.id) else t[event.row.id := event.row]
  }

  function Replay(events: seq<Event>): Table {
    if events == [] then map[] else Apply(Replay(events[..|events| - 1]), events[|events| - 1])
  }

  lemma ReplayAppend(events: seq<Event>, event: Event)
    ensures Replay(events + [event]) == Apply(Replay(events), event)
  {
    assert (events + [event])[..|events|] == events;
  }
}
