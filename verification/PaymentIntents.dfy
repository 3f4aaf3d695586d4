/** PaymentIntentsService and StellarObserverService as the objects they are: the table, the event log and
    the `running` flag are updated in place, each call running to completion before the next. */
module PaymentIntents {
  import opened Wrappers
  import opened Decimals
  import opened Assets
  import opened Memos
  import opened Money
  import opened Intents
  import opened Verifier
  import opened Lifecycle
  import opened Settlement
  import opened Expiry
  import S = Serial

  datatype TxBody = TxBody(
    source: string, destination: string, amount: string,
    assetCode: Option<string>, assetIssuer: Option<string>, memo: Option<string>)

  datatype PayBody = PayBody(
    destination: string, amount: Option<string>,
    assetCode: Option<string>, assetIssuer: Option<string>, memo: Option<string>)

  /** `resolveNetwork`: the API key decides, the configuration only where no environment is forwarded. */
  function ResolveNetwork(environment: Option<Environment>, fallback: Network): Network {
    match environment
    case Some(PROD) => PUBLIC
    case Some(DEV) => TESTNET
    case None => fallback
  }

  /** The request a body asks for; None is a BadRequest. */
  function TxRequest(consumer: string, network: Network, body: TxBody, random: seq<Byte>): Option<CreateRequest> {
    var asset, memo := ResolveAsset(body.assetCode, body.assetIssuer), ResolveMemo(body.memo, random);
    if asset.None? || memo.None? then None
    else Some(CreateRequest(consumer, TX, network, Some(body.source), body.destination, Some(body.amount),
                            asset.value, memo.value))
  }

  function PayRequest(consumer: string, network: Network, body: PayBody, random: seq<Byte>): Option<CreateRequest> {
    var asset, memo := ResolveAsset(body.assetCode, body.assetIssuer), ResolveMemo(body.memo, random);
    if asset.None? || memo.None? then None
    else Some(CreateRequest(consumer, PAY, network, None, body.destination, body.amount, asset.value, memo.value))
  }

  /** Whatever the two endpoints let through is storable. */
  lemma TxIsValid(consumer: string, network: Network, body: TxBody, random: seq<Byte>)
    requires |random| == 8 && IsAmount(body.amount)
    ensures var q := TxRequest(consumer, network, body, random); q.Some? ==> ValidRequest(q.value)
  {
    ResolvedIsStored(body.assetCode, body.assetIssuer);
    RandomMemoRoundTrip(random, random);
  }

  lemma PayIsValid(consumer: string, network: Network, body: PayBody, random: seq<Byte>)
    requires |random| == 8 && Accepted(body.amount)
    ensures var q := PayRequest(consumer, network, body, random); q.Some? ==> ValidRequest(q.value)
  {
    ResolvedIsStored(body.assetCode, body.assetIssuer);
    RandomMemoRoundTrip(random, random);
  }

  /** A supplied memo the service takes: a numeral of at most 64 bits. */
  predicate Uint64Text(memo: string) {
    && memo != "" && (forall i | 0 <= i < |memo| :: '0' <= memo[i] <= '9')
    && ParseNat(memo) <= 18446744073709551615
  }

  /** The memo of a request: the one supplied, or the numeral of eight random bytes. */
  predicate MemoFor(memo: string, provided: Option<string>, random: seq<Byte>) {
    if provided.Some? then memo == provided.value
    else |random| == 8 ==> AllDigits(memo) && NoLeadingZero(memo) && ParseNat(memo) == BigEndian(random)
  }

  lemma MemoTerms(provided: Option<string>, random: seq<Byte>)
    ensures var memo := ResolveMemo(provided, random);
      && (memo.None? <==> provided.Some? && !Uint64Text(provided.value))
      && (memo.Some? ==> MemoFor(memo.value, provided, random))
  {
    if provided.None? && |random| == 8 {
      RandomMemoRoundTrip(random, random);
      ToDecimalRoundTrip(HexValue(ToHex(random)));
    }
  }

  /** A createTx is refused exactly for an asset that does not resolve or a memo that is no 64-bit numeral; an
      accepted one carries what the body says, on the given network. */
  lemma RequestTerms(consumer: string, network: Network, body: TxBody, random: seq<Byte>)
    ensures var q, asset := TxRequest(consumer, network, body, random), ResolveAsset(body.assetCode, body.assetIssuer);
      && (q.None? <==> asset.None? || (body.memo.Some? && !Uint64Text(body.memo.value)))
      && (q.Some? ==>
            && q.value.consumer == consumer && q.value.network == network && q.value.kind == TX
            && q.value.source == Some(body.source) && q.value.destination == body.destination
            && q.value.amount == Some(body.amount) && Some(q.value.asset) == asset
            && MemoFor(q.value.memo, body.memo, random))
  {
    MemoTerms(body.memo, random);
  }

  /** The same for createPay, which knows no source and may leave the amount open. */
  lemma PayTerms(consumer: string, network: Network, body: PayBody, random: seq<Byte>)
    ensures var q, asset := PayRequest(consumer, network, body, random), ResolveAsset(body.assetCode, body.assetIssuer);
      && (q.None? <==> asset.None? || (body.memo.Some? && !Uint64Text(body.memo.value)))
      && (q.Some? ==>
            && q.value.consumer == consumer && q.value.network == network && q.value.kind == PAY
            && q.value.source == None && q.value.destination == body.destination
            && q.value.amount == body.amount && Some(q.value.asset) == asset
            && MemoFor(q.value.memo, body.memo, random))
  {
    MemoTerms(body.memo, random);
  }

  lemma FoundIsUnique(t: Table, consumer: string, memo: string, id: string)
    requires Consistent(t) && id in t && HasKey(t[id], consumer, memo)
    ensures FindByMemo(t, consumer, memo) == Some(t[id])
  {
  }

  lemma {:induction false} OldestExists(t: Table, ids: set<string>) returns (oldest: string)
    requires ids != {} && forall id | id in ids :: id in t
    ensures oldest in ids && forall id | id in ids :: t[oldest].createdAt <= t[id].createdAt
  {
    oldest :| oldest in ids;
    if ids != {oldest} {
      var other := OldestExists(t, ids - {oldest});
      if t[other].createdAt < t[oldest].createdAt {
        oldest := other;
      }
    }
  }

  lemma IdsCount(ids: seq<string>, eligible: set<string>)
    requires Distinct(ids) && forall id | id in ids :: id in eligible
    ensures |ids| <= |eligible|
    ensures eligible == (set id | id in ids) ==> |ids| == |eligible|
  {
    DistinctCount(ids, eligible);
  }

  class Service {
    const config: Config
    var table: Table
    var events: seq<Event>

    ghost function State(): S.Store
      reads this
    {
      S.Store(table, events)
    }

    /** The constraints hold and the event log rebuilds the table. */
    ghost predicate Valid()
      reads this
    {
      S.Faithful(State())
    }

    constructor (config: Config)
      ensures Valid() && this.config == config
      ensures State() == S.Store(map[], [])
    {
      this.config := config;
      table, events := map[], [];
    }

    // ── Database and event bus ───────────────────────────────────────────────

    method FindRow(consumer: string, memo: string) returns (row: Option<Intent>)
      requires Valid()
      ensures row == FindByMemo(table, consumer, memo)
    {
      if id :| id in table && HasKey(table[id], consumer, memo) {
        FoundIsUnique(table, consumer, memo, id);
        return Some(table[id]);
      }
      return None;
    }

    method UpdateRow(row: Intent) returns (ok: bool)
      requires row.id in table
      modifies `table
      ensures ok == Write(old(table), row).Some?
      ensures table == if ok then Write(old(table), row).value else old(table)
    {
      if row.txHash.Some? && exists id :: id in table && id != row.id && table[id].txHash == row.txHash {
        return false;
      }
      table := table[row.id := row];
      return true;
    }

    method EmitEvent(consumer: string, kind: EventKind, row: Intent)
      modifies `events
      ensures events == old(events) + [Event(consumer, kind, row)]
    {
      events := events + [Event(consumer, kind, row)];
    }

    // ── Create ───────────────────────────────────────────────────────────────

    /** Stamps the lifetime and inserts; None is a unique violation. */
    method Persist(q: CreateRequest, id: string, now: int) returns (row: Option<Intent>)
      requires Valid() && ValidRequest(q) && id !in table
      modifies `table
      ensures row.None? <==> KeyTaken(old(table), q.consumer, q.memo)
      ensures row.Some? ==> row.value == NewRow(q, id, now, now + config.ttl) && table == old(table)[id := row.value]
      ensures row.None? ==> table == old(table)
    {
      var stamped := NewRow(q, id, now, now + config.ttl);
      InsertKeepsConsistent(table, stamped);
      if exists other :: other in table && HasKey(table[other], q.consumer, q.memo) {
        return None;
      }
      table := table[id := stamped];
      return Some(stamped);
    }

    /** The common part of createTx and createPay, from the idempotency check on. `builds` is whether
        the source account loads and the transaction builds. */
    method CreateIntent(q: CreateRequest, id: string, now: int, builds: bool) returns (answer: Answer)
      requires Valid() && ValidRequest(q) && id !in table
      modifies this
      ensures Valid()
      ensures S.Result(State(), answer) == S.Create(old(State()), q, id, now, now + config.ttl, builds)
    {
      hide Consistent, ValidRequest;
      S.CreateFaithful(State(), q, id, now, now + config.ttl, builds);
      var existing := FindRow(q.consumer, q.memo);
      if existing.Some? {
        return Created(q.consumer, q.memo, existing.value.id);
      }
      if q.kind == TX && !builds {
        return Failed;
      }
      var row := Persist(q, id, now);
      EmitEvent(q.consumer, CREATED, row.value);
      return Created(q.consumer, q.memo, id);
    }

    method CreateTx(consumer: string, environment: Option<Environment>, fallback: Network, body: TxBody,
                    random: seq<Byte>,
                    id: string, now: int, builds: bool)
      returns (answer: Answer)
      requires Valid() && |random| == 8 && IsAmount(body.amount) && id !in table
      modifies this
      ensures Valid()
      ensures var q := TxRequest(consumer, ResolveNetwork(environment, fallback), body, random);
        S.Result(State(), answer) == if q.None? then S.Result(old(State()), Failed)
                                     else S.Create(old(State()), q.value, id, now, now + config.ttl, builds)
    {
      var network := ResolveNetwork(environment, fallback);
      TxIsValid(consumer, network, body, random);
      var q := TxRequest(consumer, network, body, random);
      if q.None? {
        return Failed;
      }
      answer := CreateIntent(q.value, id, now, builds);
    }

    method CreatePay(consumer: string, environment: Option<Environment>, fallback: Network, body: PayBody,
                     random: seq<Byte>,
                     id: string, now: int)
      returns (answer: Answer)
      requires Valid() && |random| == 8 && Accepted(body.amount) && id !in table
      modifies this
      ensures Valid()
      ensures var q := PayRequest(consumer, ResolveNetwork(environment, fallback), body, random);
        S.Result(State(), answer) == if q.None? then S.Result(old(State()), Failed)
                                     else S.Create(old(State()), q.value, id, now, now + config.ttl, true)
    {
      var network := ResolveNetwork(environment, fallback);
      PayIsValid(consumer, network, body, random);
      var q := PayRequest(consumer, network, body, random);
      if q.None? {
        return Failed;
      }
      answer := CreateIntent(q.value, id, now, true);
    }

    // ── Update, delete ───────────────────────────────────────────────────────

    method Patch(consumer: string, id: string, patch: Patch) returns (answer: Answer)
      requires Valid()
      modifies this
      ensures Valid()
      ensures S.Result(State(), answer) == S.PatchIntent(old(State()), consumer, id, patch)
    {
      S.PatchIsJournaled(State(), consumer, id, patch);
      if !Owned(table, consumer, id) {
        return Failed;
      }
      var updated := Patched(table[id], patch);
      var ok := UpdateRow(updated);
      if !ok {
        return Failed;
      }
      EmitEvent(consumer, PatchEvent(patch), updated);
      return Updated(id);
    }

    method Remove(consumer: string, id: string) returns (answer: Answer)
      requires Valid()
      modifies this
      ensures Valid()
      ensures S.Result(State(), answer) == S.Remove(old(State()), consumer, id)
    {
      S.RemoveIsJournaled(State(), consumer, id);
      if !Owned(table, consumer, id) {
        return Failed;
      }
      if table[id].status == SUCCEEDED {
        return Failed;
      }
      var deleted := table[id];
      table := Delete(table, id);
      EmitEvent(consumer, DELETED, deleted);
      return Removed(id);
    }

    // ── Settle ───────────────────────────────────────────────────────────────

    method MarkSucceeded(id: string, consumer: string, txHash: string, payer: string) returns (answer: Answer)
      requires Valid()
      modifies this
      ensures Valid()
      ensures S.Result(State(), answer) == S.Settle(old(State()), consumer, id, txHash, payer)
    {
      S.SettleIsJournaled(State(), consumer, id, txHash, payer);
      if id !in table {
        return Failed;
      }
      var setSource := SourceToSet(table[id].source, payer);
      var updated := Settled(table[id], txHash, setSource);
      var ok := UpdateRow(updated);
      if !ok {
        return Failed;
      }
      EmitEvent(consumer, SETTLED, updated);
      return Outcome(true, SUCCEEDED);
    }

    method MarkFailed(id: string, consumer: string, txHash: string) returns (answer: Answer)
      requires Valid()
      modifies this
      ensures Valid()
      ensures S.Result(State(), answer) == S.Reject(old(State()), consumer, id, txHash)
    {
      S.RejectIsJournaled(State(), consumer, id, txHash);
      if id !in table {
        return Failed;
      }
      var updated := Rejected(table[id], txHash);
      var ok := UpdateRow(updated);
      if !ok {
        return Failed;
      }
      EmitEvent(consumer, REJECTED, updated);
      return Outcome(false, FAILED);
    }

    method MarkExpired(id: string, consumer: string) returns (answer: Answer)
      requires Valid()
      modifies this
      ensures Valid()
      ensures S.Result(State(), answer) == S.Expire(old(State()), consumer, id)
    {
      S.ExpireIsJournaled(State(), consumer, id);
      if id !in table {
        return Failed;
      }
      var updated := Lapsed(table[id]);
      var ok := UpdateRow(updated);
      if !ok {
        return Failed;
      }
      EmitEvent(consumer, UPDATED, updated);
      return Updated(id);
    }

    method Validate(ledger: Ledger, consumer: string, id: string, txHash: string) returns (answer: Answer)
      requires Valid()
      modifies this
      ensures Valid()
      ensures S.Result(State(), answer) == S.Validate(config, ledger, old(State()), consumer, id, txHash)
    {
      if !Owned(table, consumer, id) {
        return Failed;
      }
      var intent := table[id];
      if intent.status == SUCCEEDED {
        return Outcome(true, SUCCEEDED);
      }
      var result := VerifyByHash(ledger, config.pageSize, intent, txHash);
      if result.Valid? {
        answer := MarkSucceeded(id, consumer, result.txHash, result.payer);
        return;
      }
      if result.reason == FAILED_ON_CHAIN {
        answer := MarkFailed(id, consumer, txHash);
        return;
      }
      return Outcome(false, intent.status);
    }

    // ── The observer's queries ───────────────────────────────────────────────

    /** Up to `take` overdue rows, in the arbitrary order of an unordered query. */
    method QueryOverdue(now: int, take: nat) returns (ids: seq<string>)
      ensures AnyBatch(table, OverdueIds(table, now), take, ids)
      ensures forall id | id in ids ::
        && id in table && (table[id].status == PENDING || table[id].status == SUBMITTED)
        && table[id].expiresAt.Some? && table[id].expiresAt.value < now
      ensures |ids| < take ==>
        forall id | id in table && (table[id].status == PENDING || table[id].status == SUBMITTED)
                    && table[id].expiresAt.Some? && table[id].expiresAt.value < now :: id in ids
    {
      ids := [];
      var rest := table.Keys;
      while rest != {} && |ids| < take
        invariant rest <= table.Keys && |ids| <= take
        invariant Distinct(ids) && forall id | id in ids :: id in OverdueIds(table, now) && id !in rest
        invariant forall id | id in OverdueIds(table, now) :: id in ids || id in rest
        decreases |rest|
      {
        var id :| id in rest;
        rest := rest - {id};
        if Overdue(table[id], now) {
          ids := ids + [id];
        }
      }
      IdsCount(ids, OverdueIds(table, now));
    }

    /** Up to `take` pending rows, oldest first. */
    method QueryPending(take: nat) returns (ids: seq<string>)
      ensures OldestBatch(table, take, ids)
    {
      ids := [];
      var rest := set id | id in table && table[id].status == PENDING;
      while rest != {} && |ids| < take
        invariant |ids| <= take && OldestFirst(table, ids, rest)
        decreases |rest|
      {
        ghost var oldest := OldestExists(table, rest);
        var id :| id in rest && forall other | other in rest :: table[id].createdAt <= table[other].createdAt;
        TakesOldest(table, ids, rest, id);
        rest := rest - {id};
        ids := ids + [id];
      }
      IdsCount(ids, PendingIds(table));
    }
  }

  /** `ids` are pending rows, oldest first, and `rest` are the other pending rows, none of them older. */
  ghost predicate OldestFirst(t: Table, ids: seq<string>, rest: set<string>) {
    && rest <= PendingIds(t) && Distinct(ids)
    && (forall id | id in ids :: id in PendingIds(t) && id !in rest && id in t)
    && (forall id | id in PendingIds(t) :: id in ids || id in rest)
    && (forall i, j | 0 <= i < j < |ids| :: t[ids[i]].createdAt <= t[ids[j]].createdAt)
    && forall i, other | 0 <= i < |ids| && other in rest :: t[ids[i]].createdAt <= t[other].createdAt
  }

  lemma TakesOldest(t: Table, ids: seq<string>, rest: set<string>, id: string)
    requires OldestFirst(t, ids, rest) && id in rest
    requires forall other | other in rest :: t[id].createdAt <= t[other].createdAt
    ensures OldestFirst(t, ids + [id], rest - {id})
  {
  }

  class Observer {
    const service: Service
    var running: bool

    constructor (service: Service)
      ensures this.service == service && !running
    {
      this.service := service;
      running := false;
    }

    /** One reconciliation cycle, skipped while another is running. `failing` and `down` are the rows whose
        expiry, respectively reconciliation, fails on the way; both are logged and passed over. */
    method Tick(ledger: Ledger, now: int, failing: set<string>, down: set<string>) returns (ghost cycle: S.Cycle)
      requires service.Valid() && WellFormedLedger(ledger)
      modifies this, service
      ensures service.Valid() && running == old(running)
      ensures old(running) ==> service.State() == old(service.State())
      ensures !old(running) ==>
        && cycle.now == now && cycle.failing == failing && cycle.down == down
        && S.LegalCycle(service.config, old(service.State()), cycle)
        && service.State() == S.Tick(service.config, ledger, old(service.State()), cycle)
    {
      cycle := S.Cycle(now, [], failing, [], down);
      if running {
        return;
      }
      running := true;
      ghost var overdue := ExpireOverdue(now, failing);
      cycle := cycle.(overdue := overdue);
      assert service.State() == S.Expired(old(service.State()), cycle);
      ghost var pending := ReconcilePending(ledger, down);
      cycle := cycle.(pending := pending);
      running := false;
    }

    /** The first loop of a cycle. */
    method ExpireOverdue(now: int, failing: set<string>) returns (ghost ids: seq<string>)
      requires service.Valid()
      modifies service
      ensures service.Valid()
      ensures AnyBatch(old(service.table), OverdueIds(old(service.table), now), service.config.batchSize, ids)
      ensures service.State() == S.ExpireAll(old(service.State()), Rows(old(service.table), ids), failing)
    {
      ghost var start := service.State();
      var batch := service.QueryOverdue(now, service.config.batchSize);
      var expired := Rows(service.table, batch);
      for i := 0 to |expired|
        invariant service.Valid()
        invariant service.State() == S.ExpireAll(start, expired[..i], failing)
      {
        assert expired[..i + 1][..i] == expired[..i];
        if expired[i].id !in failing {
          var _ := service.MarkExpired(expired[i].id, expired[i].consumer);
        }
      }
      assert expired[..|expired|] == expired;
      ids := batch;
    }

    /** The second loop of a cycle. */
    method ReconcilePending(ledger: Ledger, down: set<string>) returns (ghost ids: seq<string>)
      requires service.Valid() && WellFormedLedger(ledger)
      modifies service
      ensures service.Valid()
      ensures OldestBatch(old(service.table), service.config.batchSize, ids)
      ensures service.State()
          == S.ReconcileAll(service.config, ledger, old(service.State()), Rows(old(service.table), ids), down)
    {
      ghost var start := service.State();
      var batch := service.QueryPending(service.config.batchSize);
      var pending := Rows(service.table, batch);
      for i := 0 to |pending|
        invariant service.Valid()
        invariant service.State() == S.ReconcileAll(service.config, ledger, start, pending[..i], down)
      {
        assert pending[..i + 1][..i] == pending[..i];
        if pending[i].id !in down {
          Reconcile(ledger, pending[i]);
        }
      }
      assert pending[..|pending|] == pending;
      ids := batch;
    }

    /** By the reported hash where there is one, otherwise by scanning. */
    method Reconcile(ledger: Ledger, intent: Intent)
      requires service.Valid() && WellFormedLedger(ledger)
      modifies service
      ensures service.Valid()
      ensures service.State() == S.Reconcile(service.config, ledger, old(service.State()), intent)
    {
      var result: Verification;
      if intent.txHash.Some? && intent.txHash.value != "" {
        result := VerifyByHash(ledger, service.config.pageSize, intent, intent.txHash.value);
      } else {
        result := FindMatchingPayment(ledger, intent, service.config.scanLimit, true);
      }
      if result.Valid? && result.txHash != "" {
        var _ := service.MarkSucceeded(intent.id, intent.consumer, result.txHash, result.payer);
      }
    }
  }
}
