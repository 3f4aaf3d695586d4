/** The serial operations are schedules of the concurrent system: a process that is advanced without
    interruption, in whatever way, comes to an end with exactly the effect and the answer `Serial` gives for
    its operation. */
module Schedules {
  import opened Wrappers
  import opened Intents
  import opened Verifier
  import opened Lifecycle
  import opened Settlement
  import S = Serial

  ghost function StoreOf(s: System): S.Store { S.Store(s.table, s.events) }

  /** Advancing one process through a list of choices, all others standing still. */
  ghost function Solo(c: Config, s: System, p: nat, choices: seq<Choice>): System
    decreases |choices|
  {
    if choices == [] then s else Solo(c, Step(c, s, Advance(p, choices[0])), p, choices[1..])
  }

  /** s with another store and another p-th process; the observer's flag falls with its cycle. */
  ghost predicate Becomes(s: System, s': System, p: nat, store: S.Store, q: Process) {
    && p < |s.processes| && s'.processes == s.processes[p := q] && StoreOf(s') == store
    && s'.ledger == s.ledger && s'.clock == s.clock && s'.running == (s.running && q != Done(CycleEnded))
  }

  // ── Single steps ───────────────────────────────────────────────────────────

  lemma ReadStep(c: Config, s: System, p: nat, choice: Choice)
    requires p < |s.processes| && Enabled(c, s, s.processes[p], choice) && !Writes(s.processes[p])
    requires !choice.Fail? && !s.processes[p].Emit?
    ensures Becomes(s, Step(c, s, Advance(p, choice)), p, StoreOf(s), ReadMove(c, s, s.processes[p], choice))
  {
  }

  lemma EmitStep(c: Config, s: System, p: nat)
    requires p < |s.processes| && s.processes[p].Emit?
    ensures Becomes(s, Step(c, s, Advance(p, Proceed)), p, S.Store(s.table, s.events + [s.processes[p].event]),
                    s.processes[p].next)
  {
  }

  lemma WriteStep(c: Config, s: System, p: nat, choice: Choice)
    requires p < |s.processes| && Enabled(c, s, s.processes[p], choice) && Writes(s.processes[p]) && !choice.Fail?
    ensures var e := WriteMove(s, s.processes[p], choice);
      Becomes(s, Step(c, s, Advance(p, choice)), p, S.Store(e.table, s.events), e.next)
  {
  }

  // ── Scripts ────────────────────────────────────────────────────────────────

  /** What a process cannot decide: the id the database draws, whether the transaction builds, and for the
      observer the rows its queries return and the rows whose calls fail. */
  datatype Script = Script(id: string, builds: bool, cycle: S.Cycle)

  /** The observer is working on a row that some call fails for. */
  predicate Down(q: Process, k: Script) {
    match q
    case FetchTransaction(intent, _, caller) => caller.Observer? && intent.id in k.cycle.down
    case FetchPayments(intent, _, caller) => caller.Observer? && intent.id in k.cycle.down
    case FetchPage(intent, caller) => caller.Observer? && intent.id in k.cycle.down
    case FetchOwner(intent, _, caller) => caller.Observer? && intent.id in k.cycle.down
    case ReadSource(intent, _, _, caller) => caller.Observer? && intent.id in k.cycle.down
    case WriteSettled(intent, _, _, caller) => caller.Observer? && intent.id in k.cycle.down
    case _ => false
  }

  predicate MarkFails(q: Process, k: Script) {
    q.WriteExpired? && q.batch != [] && q.batch[0].id in k.cycle.failing
  }

  /** The choices a script leaves: calls fail where it says so and nowhere else. A row that is down may fail at
      any of its calls, but does not get settled. */
  predicate Allowed(q: Process, choice: Choice, k: Script) {
    match choice
    case Fail => (q.LoadAccount? && !k.builds) || MarkFails(q, k) || Down(q, k)
    case Fresh(id) => id == k.id
    case Batch(ids) => ids == if q.QueryOverdue? then k.cycle.overdue else k.cycle.pending
    case Proceed => !(q.LoadAccount? && !k.builds) && !MarkFails(q, k) && !(q.WriteSettled? && Down(q, k))
  }

  /** Every choice that has an effect is one the script leaves. */
  ghost predicate ByScript(c: Config, s: System, p: nat, choices: seq<Choice>, k: Script)
    decreases |choices|
  {
    choices == [] || (
      && (p < |s.processes| && Enabled(c, s, s.processes[p], choices[0]) ==> Allowed(s.processes[p], choices[0], k))
      && ByScript(c, Step(c, s, Advance(p, choices[0])), p, choices[1..], k))
  }

  /** The rows the script has for the second query are a batch by then. */
  ghost predicate PendingLegal(c: Config, st: S.Store, k: Script) {
    OldestBatch(st.table, c.batchSize, k.cycle.pending)
  }

  /** The script makes sense where the process stands. */
  ghost predicate Fits(c: Config, now: int, born: map<string, Intent>, st: S.Store, q: Process, k: Script)
    decreases q
  {
    match q
    case FindKey(_) => k.id !in born
    case LoadAccount(_) => k.id !in born
    case InsertRow(_, _) => k.id !in born
    case QueryOverdue => k.cycle.now == now && S.LegalCycle(c, st, k.cycle)
    case WriteExpired(batch) => batch != [] && PendingLegal(c, S.ExpireAll(st, batch, k.cycle.failing), k)
    case QueryPending => PendingLegal(c, st, k)
    case Emit(event, next) => Fits(c, now, born, S.Store(st.table, st.events + [event]), next, k)
    case _ => true
  }

  // ── What a process will have done ──────────────────────────────────────────

  /** The source column as markSucceeded will read it. */
  function SourceOf(t: Table, id: string): Option<string> { if id in t then t[id].source else None }

  /** The rest of the observer's second loop. */
  ghost function Rest(c: Config, ledger: Ledger, st: S.Store, rest: seq<Intent>, k: Script): S.Result {
    S.Result(S.ReconcileAll(c, ledger, st, rest, k.cycle.down), CycleEnded)
  }

  /** The observer's second query and loop. */
  ghost function SecondHalf(c: Config, ledger: Ledger, st: S.Store, k: Script): S.Result {
    if PendingLegal(c, st, k) then Rest(c, ledger, st, Rows(st.table, k.cycle.pending), k) else S.Result(st, Failed)
  }

  ghost function WholeCycle(c: Config, ledger: Ledger, st: S.Store, k: Script): S.Result {
    if S.LegalCycle(c, st, k.cycle) then S.Result(S.Tick(c, ledger, st, k.cycle), CycleEnded) else S.Result(st, Failed)
  }

  ghost function Creating(st: S.Store, r: CreateRequest, id: string, now: int, expiresAt: int, builds: bool): S.Result {
    if id in st.table then S.Result(st, Failed) else S.Create(st, r, id, now, expiresAt, builds)
  }

  ghost function Refetching(st: S.Store, r: CreateRequest): S.Result {
    var existing := FindByMemo(st.table, r.consumer, r.memo);
    if existing.Some? then S.Result(st, Created(r.consumer, r.memo, existing.value.id)) else S.Result(st, Failed)
  }

  function Removing(st: S.Store, consumer: string, id: string): S.Result {
    if id !in st.table then S.Result(st, Failed)
    else S.Result(S.Store(Delete(st.table, id), st.events + [Event(consumer, DELETED, st.table[id])]), Removed(id))
  }

  /** The write of an update and its event. */
  ghost function UpdatedNow(st: S.Store, q: Process, answer: Answer): S.Result
    requires Updates(q)
  {
    if Target(q) !in st.table then S.Result(st, Failed)
    else
      var row := Rewritten(q, st.table[Target(q)]);
      S.Mutate(st, row, Announcement(q, row), answer)
  }

  /** Settling, and for the observer the rest of its loop. */
  ghost function SettlingNow(c: Config, ledger: Ledger, st: S.Store, q: Process, k: Script): S.Result
    requires q.WriteSettled?
  {
    var r := UpdatedNow(st, q, Outcome(true, SUCCEEDED));
    match q.caller
    case Api(_) => r
    case Observer(rest) =>
      if q.intent.id in k.cycle.down then Rest(c, ledger, st, rest, k) else Rest(c, ledger, r.store, rest, k)
  }

  ghost function Concluding(c: Config, ledger: Ledger, st: S.Store, intent: Intent, txHash: string, v: Verification,
                            caller: Caller, k: Script): S.Result {
    match v
    case Valid(hash, payer) =>
      SettlingNow(c, ledger, st,
                  WriteSettled(intent, hash, SourceToSet(SourceOf(st.table, intent.id), payer), caller), k)
    case Invalid(reason) => Dismissing(c, ledger, st, intent, txHash, reason, caller, k)
  }

  ghost function Dismissing(c: Config, ledger: Ledger, st: S.Store, intent: Intent, txHash: string, reason: Reason,
                            caller: Caller, k: Script): S.Result {
    match caller
    case Observer(rest) => Rest(c, ledger, st, rest, k)
    case Api(consumer) =>
      if reason == FAILED_ON_CHAIN then UpdatedNow(st, WriteRejected(intent, txHash, consumer), Outcome(false, FAILED))
      else S.Result(st, Outcome(false, intent.status))
  }

  /** A scan's verdict: a match needs a hash. */
  ghost function Scanning(c: Config, ledger: Ledger, st: S.Store, intent: Intent, page: seq<Operation>,
                          caller: Caller, k: Script): S.Result {
    var v := Scan(ledger, intent, page);
    if v.Valid? && v.txHash != "" then Concluding(c, ledger, st, intent, "", v, caller, k)
    else Dismissing(c, ledger, st, intent, "", NOT_YET, caller, k)
  }

  function Paying(tx: Transaction, op: Option<Operation>): Verification {
    if op.None? then Invalid(NO_PAYMENT) else Valid(tx.hash, op.value.from)
  }

  /** The store and the answer a process comes to, alone and by the script. */
  ghost function Promise(c: Config, ledger: Ledger, now: int, st: S.Store, q: Process, k: Script): S.Result
    decreases q
  {
    match q
    case FindKey(r) => Creating(st, r, k.id, now, now + c.ttl, k.builds)
    case LoadAccount(r) => if k.builds then Creating(st, r, k.id, now, now + c.ttl, true) else S.Result(st, Failed)
    case InsertRow(r, expiresAt) => Creating(st, r, k.id, now, expiresAt, true)
    case RefetchKey(r) => Refetching(st, r)
    case AuthorizePatch(consumer, id, patch) => S.PatchIntent(st, consumer, id, patch)
    case WritePatch(_, id, _) => UpdatedNow(st, q, Updated(id))
    case AuthorizeRemoval(consumer, id) => S.Remove(st, consumer, id)
    case CheckRemoval(consumer, id) =>
      if id in st.table && st.table[id].status == SUCCEEDED then S.Result(st, Failed) else Removing(st, consumer, id)
    case DeleteRow(consumer, id) => Removing(st, consumer, id)
    case LoadIntent(consumer, id, txHash) => S.Validate(c, ledger, st, consumer, id, txHash)
    case FetchTransaction(intent, txHash, caller) =>
      Concluding(c, ledger, st, intent, txHash, VerifyByHash(ledger, c.pageSize, intent, txHash), caller, k)
    case FetchPayments(intent, tx, caller) =>
      Concluding(c, ledger, st, intent, tx.hash, Paying(tx, FirstMatch(intent, FirstPage(tx, c.pageSize))), caller, k)
    case FetchPage(intent, caller) =>
      Scanning(c, ledger, st, intent, RecentPage(ledger, intent.network, intent.destination, c.scanLimit), caller, k)
    case FetchOwner(intent, page, caller) => Scanning(c, ledger, st, intent, page, caller, k)
    case ReadSource(intent, txHash, payer, caller) =>
      Concluding(c, ledger, st, intent, txHash, Valid(txHash, payer), caller, k)
    case WriteSettled(_, _, _, _) => SettlingNow(c, ledger, st, q, k)
    case WriteRejected(_, _, _) => UpdatedNow(st, q, Outcome(false, FAILED))
    case WriteExpired(batch) => SecondHalf(c, ledger, S.ExpireAll(st, batch, k.cycle.failing), k)
    case QueryOverdue => WholeCycle(c, ledger, st, k)
    case QueryPending => SecondHalf(c, ledger, st, k)
    case Emit(event, next) => Promise(c, ledger, now, S.Store(st.table, st.events + [event]), next, k)
    case Done(answer) => S.Result(st, answer)
  }

  // ── Where continuations lead ───────────────────────────────────────────────

  lemma {:induction false} ReconcileAllFirst(c: Config, ledger: Ledger, st: S.Store, rows: seq<Intent>,
                                             down: set<string>)
    requires rows != []
    ensures S.ReconcileAll(c, ledger, st, rows, down)
        == S.ReconcileAll(c, ledger, S.ReconcileAll(c, ledger, st, rows[..1], down), rows[1..], down)
    ensures S.ReconcileAll(c, ledger, st, rows[..1], down)
        == if rows[0].id in down then st else S.Reconcile(c, ledger, st, rows[0])
  {
    assert rows[..1][..0] == [];
    if |rows| > 1 {
      var front := rows[..|rows| - 1];
      ReconcileAllFirst(c, ledger, st, front, down);
      assert front[..1] == rows[..1] && front[1..] == rows[1..][..|rows| - 2];
    } else {
      assert rows[..1] == rows;
    }
  }

  lemma {:induction false} ExpireAllFirst(st: S.Store, rows: seq<Intent>, failing: set<string>)
    requires rows != []
    ensures S.ExpireAll(st, rows, failing) == S.ExpireAll(S.ExpireAll(st, rows[..1], failing), rows[1..], failing)
    ensures S.ExpireAll(st, rows[..1], failing)
        == if rows[0].id in failing then st else S.Expire(st, rows[0].consumer, rows[0].id).store
  {
    assert rows[..1][..0] == [];
    if |rows| > 1 {
      var front := rows[..|rows| - 1];
      ExpireAllFirst(st, front, failing);
      assert front[..1] == rows[..1] && front[1..] == rows[1..][..|rows| - 2];
    } else {
      assert rows[..1] == rows;
    }
  }

  /** The next pending row, up to its verdict, is one round of the serial loop. */
  lemma NextPendingPromise(c: Config, ledger: Ledger, now: int, st: S.Store, rest: seq<Intent>, k: Script)
    ensures Promise(c, ledger, now, st, NextPending(rest), k) == Rest(c, ledger, st, rest, k)
  {
    hide SettlingNow, UpdatedNow, S.Reconcile, Lookup, MemoMatches, FirstMatch, FirstPage, RecentPage, Admits;
    if rest != [] {
      ReconcileAllFirst(c, ledger, st, rest, k.cycle.down);
      RoundPromise(c, ledger, st, rest, k);
    }
  }

  /** What the observer learns about a row, and what it makes of it. */
  lemma RoundPromise(c: Config, ledger: Ledger, st: S.Store, rest: seq<Intent>, k: Script)
    requires rest != []
    ensures var row, caller, v := rest[0], Observer(rest[1..]), S.Observed(c, ledger, rest[0]);
      (if v.Valid? && v.txHash != "" then Concluding(c, ledger, st, row, "", v, caller, k)
       else Dismissing(c, ledger, st, row, "", NOT_YET, caller, k))
      == Rest(c, ledger, if row.id in k.cycle.down then st else S.Reconcile(c, ledger, st, row), rest[1..], k)
  {
    hide VerifyByHash, Scan, RecentPage;
  }

  lemma NextExpiredPromise(c: Config, ledger: Ledger, now: int, st: S.Store, batch: seq<Intent>, k: Script)
    ensures Promise(c, ledger, now, st, NextExpired(batch), k)
        == SecondHalf(c, ledger, S.ExpireAll(st, batch, k.cycle.failing), k)
  {
  }

  lemma AfterInvalidPromise(c: Config, ledger: Ledger, now: int, st: S.Store, intent: Intent, txHash: string,
                            reason: Reason, caller: Caller, k: Script)
    ensures Promise(c, ledger, now, st, AfterInvalid(intent, txHash, reason, caller), k)
         == Dismissing(c, ledger, st, intent, txHash, reason, caller, k)
  {
    hide Rest, UpdatedNow, NextPending;
    if caller.Observer? {
      NextPendingPromise(c, ledger, now, st, caller.rest, k);
    }
  }

  lemma {:induction false} SeekMatchPromise(c: Config, ledger: Ledger, now: int, st: S.Store, intent: Intent,
                                            page: seq<Operation>, caller: Caller, k: Script)
    ensures Promise(c, ledger, now, st, SeekMatch(intent, page, caller), k)
        == Scanning(c, ledger, st, intent, page, caller, k)
  {
    hide Concluding, Dismissing, AfterInvalid, PaymentMatches, MemoMatches, Lookup;
    if page == [] {
      AfterInvalidPromise(c, ledger, now, st, intent, "", NOT_YET, caller, k);
    } else if !PaymentMatches(intent, page[0]) {
      SeekMatchPromise(c, ledger, now, st, intent, page[1..], caller, k);
    }
  }

  // ── Every allowed step keeps the promise ───────────────────────────────────

  ghost function StoreAfter(s: System, e: Effect): S.Store { S.Store(e.table, s.events) }

  /** The step changes neither what the process will have done nor whether the script fits. */
  ghost predicate Keeps(c: Config, s: System, q: Process, k: Script, e: Effect) {
    && Promise(c, s.ledger, s.clock, StoreAfter(s, e), e.next, k) == Promise(c, s.ledger, s.clock, StoreOf(s), q, k)
    && Fits(c, s.clock, e.born, StoreAfter(s, e), e.next, k)
  }

  ghost predicate Going(c: Config, s: System, q: Process, choice: Choice, k: Script) {
    && Inv(s) && Sound(s.ledger, s.born, q) && Enabled(c, s, q, choice) && Allowed(q, choice, k)
    && Fits(c, s.clock, s.born, StoreOf(s), q, k)
  }

  ghost function Unchanged(s: System, next: Process): Effect { Effect(s.table, s.born, s.patched, next) }

  lemma CreateRequestKeeps(c: Config, s: System, q: Process, choice: Choice, k: Script)
    requires Going(c, s, q, choice, k) && choice.Proceed? && (q.FindKey? || q.LoadAccount? || q.RefetchKey?)
    ensures Keeps(c, s, q, k, Unchanged(s, RequestMove(c, s, q)))
  {
    hide Inv, Sound, NewRow, HasKey;
    if !q.RefetchKey? {
      IdIsFree(s, k.id);
    }
  }

  lemma ConsumerRequestKeeps(c: Config, s: System, q: Process, choice: Choice, k: Script)
    requires Going(c, s, q, choice, k) && choice.Proceed?
        && (q.AuthorizePatch? || q.AuthorizeRemoval? || q.CheckRemoval?)
    ensures Keeps(c, s, q, k, Unchanged(s, RequestMove(c, s, q)))
  {
    hide Sound, Backed, UniqueKeys, UniqueHashes, WellFormedRow, Write;
  }

  lemma LoadIntentKeeps(c: Config, s: System, q: Process, choice: Choice, k: Script)
    requires Going(c, s, q, choice, k) && choice.Proceed? && q.LoadIntent?
    ensures Keeps(c, s, q, k, Unchanged(s, RequestMove(c, s, q)))
  {
    hide Sound, Backed, UniqueKeys, UniqueHashes, WellFormedRow, Write, VerifyByHash;
  }

  lemma FetchKeeps(c: Config, s: System, q: Process, choice: Choice, k: Script)
    requires Going(c, s, q, choice, k) && choice.Proceed? && (q.FetchTransaction? || q.FetchPayments? || q.ReadSource?)
    ensures Keeps(c, s, q, k, Unchanged(s, VerifyMove(c, s, q)))
  {
    hide Inv, Sound, Dismissing, SettlingNow, AfterInvalid, FirstMatch, FirstPage, MemoMatches, Lookup;
    match q
    case FetchTransaction(intent, txHash, caller) =>
      AfterInvalidPromise(c, s.ledger, s.clock, StoreOf(s), intent, txHash, NOT_FOUND, caller, k);
      AfterInvalidPromise(c, s.ledger, s.clock, StoreOf(s), intent, txHash, FAILED_ON_CHAIN, caller, k);
      AfterInvalidPromise(c, s.ledger, s.clock, StoreOf(s), intent, txHash, MEMO_MISMATCH, caller, k);
      FoundHash(s.ledger, intent.network, txHash);
      InvalidFits(c, s, intent, txHash, NOT_FOUND, caller, k);
      InvalidFits(c, s, intent, txHash, FAILED_ON_CHAIN, caller, k);
      InvalidFits(c, s, intent, txHash, MEMO_MISMATCH, caller, k);
    case FetchPayments(intent, tx, caller) =>
      AfterInvalidPromise(c, s.ledger, s.clock, StoreOf(s), intent, tx.hash, NO_PAYMENT, caller, k);
      InvalidFits(c, s, intent, tx.hash, NO_PAYMENT, caller, k);
    case ReadSource(_, _, _, _) =>
  }

  lemma FoundHash(ledger: Ledger, network: Network, txHash: string)
    ensures var tx := Lookup(ledger, network, txHash); tx.Some? ==> tx.value.hash == txHash
  {
  }

  lemma InvalidFits(c: Config, s: System, intent: Intent, txHash: string, reason: Reason, caller: Caller, k: Script)
    ensures Fits(c, s.clock, s.born, StoreOf(s), AfterInvalid(intent, txHash, reason, caller), k)
  {
  }

  lemma {:induction false} SeekFits(c: Config, s: System, intent: Intent, page: seq<Operation>, caller: Caller,
                                    k: Script)
    ensures Fits(c, s.clock, s.born, StoreOf(s), SeekMatch(intent, page, caller), k)
  {
    if page == [] {
      InvalidFits(c, s, intent, "", NOT_YET, caller, k);
    } else if !PaymentMatches(intent, page[0]) {
      SeekFits(c, s, intent, page[1..], caller, k);
    }
  }

  lemma ScanKeeps(c: Config, s: System, q: Process, choice: Choice, k: Script)
    requires Going(c, s, q, choice, k) && choice.Proceed? && (q.FetchPage? || q.FetchOwner?)
    ensures Keeps(c, s, q, k, Unchanged(s, VerifyMove(c, s, q)))
  {
    hide Consistent, RowsKnown, Backed, Known, Dismissing, SettlingNow, AfterInvalid, SeekMatch, MemoMatches,
         PaymentMatches;
    match q
    case FetchPage(intent, caller) =>
      var page := RecentPage(s.ledger, intent.network, intent.destination, c.scanLimit);
      SeekMatchPromise(c, s.ledger, s.clock, StoreOf(s), intent, page, caller, k);
      SeekFits(c, s, intent, page, caller, k);
    case FetchOwner(intent, page, caller) =>
      assert OnLedger(s.ledger, intent.network, page[0]);
      AdmitsIffFulfils(s.ledger, intent, page[0]);
      SeekMatchPromise(c, s.ledger, s.clock, StoreOf(s), intent, page[1..], caller, k);
      SeekFits(c, s, intent, page[1..], caller, k);
      AfterInvalidPromise(c, s.ledger, s.clock, StoreOf(s), intent, "", NOT_YET, caller, k);
      InvalidFits(c, s, intent, "", NOT_YET, caller, k);
  }

  lemma QueryKeeps(c: Config, s: System, q: Process, choice: Choice, k: Script)
    requires Going(c, s, q, choice, k) && choice.Batch?
    ensures Keeps(c, s, q, k, Unchanged(s, ReadMove(c, s, q, choice)))
  {
    hide Inv, Sound, OverdueIds, PendingIds;
    var rows := Rows(s.table, choice.ids);
    if q.QueryOverdue? {
      NextExpiredPromise(c, s.ledger, s.clock, StoreOf(s), rows, k);
      if rows == [] {
        assert S.ExpireAll(StoreOf(s), rows, k.cycle.failing) == StoreOf(s);
      }
    } else {
      NextPendingPromise(c, s.ledger, s.clock, StoreOf(s), rows, k);
      PendingFits(c, s, rows, k);
    }
  }

  lemma PendingFits(c: Config, s: System, rest: seq<Intent>, k: Script)
    ensures Fits(c, s.clock, s.born, StoreOf(s), NextPending(rest), k)
  {
  }

  lemma InsertKeeps(c: Config, s: System, q: Process, choice: Choice, k: Script)
    requires Going(c, s, q, choice, k) && q.InsertRow? && choice.Fresh?
    ensures Keeps(c, s, q, k, WriteMove(s, q, choice))
  {
    hide Inv, Sound, HasKey;
    IdIsFree(s, k.id);
    var row := NewRow(q.request, k.id, s.clock, q.expiresAt);
    var next := Done(Created(q.request.consumer, q.request.memo, k.id));
    EmitPromise(c, s, s.table[k.id := row], s.born[k.id := row], Event(q.request.consumer, CREATED, row), next, k);
  }

  /** An event on its way adds itself to what is promised. */
  lemma EmitPromise(c: Config, s: System, t: Table, born: map<string, Intent>, event: Event, next: Process, k: Script)
    ensures Promise(c, s.ledger, s.clock, S.Store(t, s.events), Emit(event, next), k)
         == Promise(c, s.ledger, s.clock, S.Store(t, s.events + [event]), next, k)
    ensures Fits(c, s.clock, born, S.Store(t, s.events), Emit(event, next), k)
         == Fits(c, s.clock, born, S.Store(t, s.events + [event]), next, k)
  {
  }

  lemma DeleteKeeps(c: Config, s: System, q: Process, choice: Choice, k: Script)
    requires Going(c, s, q, choice, k) && q.DeleteRow? && choice.Proceed?
    ensures Keeps(c, s, q, k, WriteMove(s, q, choice))
  {
    hide Inv, Sound;
    if q.id in s.table {
      EmitPromise(c, s, Delete(s.table, q.id), s.born, Event(q.consumer, DELETED, s.table[q.id]),
                  Done(Removed(q.id)), k);
    }
  }

  lemma FailureOwesNothing(q: Process)
    ensures !AfterFailure(q).Emit?
  {
  }

  /** An update that goes through leaves the store `Mutate` leaves and owes its event; otherwise both stay put. */
  lemma UpdatingIsMutate(s: System, q: Process, answer: Answer)
    requires Keyed(s.table) && Updates(q) && answer != Failed
    ensures var r, e := UpdatedNow(StoreOf(s), q, answer), Updating(s, q);
      && (r.answer == Failed <==> !e.next.Emit?)
      && (r.answer == Failed ==> r.store == StoreOf(s) && e == Refused(s, q))
      && (r.answer != Failed ==>
            && e.born == s.born && r.answer == answer
            && e.next.next == AfterUpdate(q) && r.store == S.Store(e.table, s.events + [e.next.event]))
  {
    FailureOwesNothing(q);
    hide Rewritten, Announcement, AfterUpdate, AfterFailure, Marked, Target, HashTaken;
    if Target(q) in s.table {
      TermsKept(q, s.table[Target(q)]);
    }
  }

  lemma RequestUpdateKeeps(c: Config, s: System, q: Process, choice: Choice, k: Script)
    requires Going(c, s, q, choice, k) && choice.Proceed? && (q.WritePatch? || q.WriteRejected?)
    ensures Keeps(c, s, q, k, WriteMove(s, q, choice))
  {
    hide Inv, Sound, Rewritten, Announcement, UpdatedNow, Updating, AfterUpdate, AfterFailure, Promise, Fits;
    KeyedRows(s);
    var answer := if q.WritePatch? then Updated(q.id) else Outcome(false, FAILED);
    UpdatingIsMutate(s, q, answer);
    RequestUpdatePromise(c, s, q, answer, k);
    var e := Updating(s, q);
    DonePromise(c, s, S.Store(e.table, s.events), e.born, Failed, k);
    if e.next.Emit? {
      DonePromise(c, s, S.Store(e.table, s.events + [e.next.event]), s.born, answer, k);
      EmitPromise(c, s, e.table, s.born, e.next.event, AfterUpdate(q), k);
    }
  }

  lemma RequestUpdatePromise(c: Config, s: System, q: Process, answer: Answer, k: Script)
    requires q.WritePatch? || q.WriteRejected?
    requires answer == if q.WritePatch? then Updated(q.id) else Outcome(false, FAILED)
    ensures Promise(c, s.ledger, s.clock, StoreOf(s), q, k) == UpdatedNow(StoreOf(s), q, answer)
    ensures AfterUpdate(q) == Done(answer) && AfterFailure(q) == Done(Failed)
  {
  }

  lemma DonePromise(c: Config, s: System, st: S.Store, born: map<string, Intent>, answer: Answer, k: Script)
    ensures Promise(c, s.ledger, s.clock, st, Done(answer), k) == S.Result(st, answer)
    ensures Fits(c, s.clock, born, st, Done(answer), k)
  {
  }

  lemma KeyedRows(s: System)
    requires Inv(s)
    ensures Keyed(s.table)
  {
  }

  lemma SettleKeeps(c: Config, s: System, q: Process, choice: Choice, k: Script)
    requires Going(c, s, q, choice, k) && choice.Proceed? && q.WriteSettled?
    ensures Keeps(c, s, q, k, WriteMove(s, q, choice))
  {
    hide Inv, Sound, Rewritten, Announcement, UpdatedNow, Updating, NextPending, Rest;
    KeyedRows(s);
    UpdatingIsMutate(s, q, Outcome(true, SUCCEEDED));
    var e := Updating(s, q);
    if e.next.Emit? {
      EmitPromise(c, s, e.table, s.born, e.next.event, AfterUpdate(q), k);
    }
    if q.caller.Observer? {
      var st := if e.next.Emit? then S.Store(e.table, s.events + [e.next.event]) else StoreOf(s);
      NextPendingPromise(c, s.ledger, s.clock, st, q.caller.rest, k);
      PendingFits(c, s.(table := st.table, events := st.events), q.caller.rest, k);
    }
  }

  lemma ExpireKeeps(c: Config, s: System, q: Process, choice: Choice, k: Script)
    requires Going(c, s, q, choice, k) && choice.Proceed? && q.WriteExpired?
    ensures Keeps(c, s, q, k, WriteMove(s, q, choice))
  {
    hide Inv, Sound, Updating, NextExpired, PendingLegal, SecondHalf;
    KeyedRows(s);
    UpdatingIsMutate(s, q, Updated(q.batch[0].id));
    ExpireAllFirst(StoreOf(s), q.batch, k.cycle.failing);
    var e := Updating(s, q);
    var st := S.ExpireAll(StoreOf(s), q.batch[..1], k.cycle.failing);
    assert st == UpdatedNow(StoreOf(s), q, Updated(q.batch[0].id)).store;
    if e.next.Emit? {
      EmitPromise(c, s, e.table, s.born, e.next.event, AfterUpdate(q), k);
    }
    NextExpiredPromise(c, s.ledger, s.clock, st, q.batch[1..], k);
    ExpiredFits(c, s.clock, s.born, st, q.batch[1..], k);
  }

  lemma ExpiredFits(c: Config, now: int, born: map<string, Intent>, st: S.Store, batch: seq<Intent>, k: Script)
    ensures Fits(c, now, born, st, NextExpired(batch), k)
        <==> PendingLegal(c, S.ExpireAll(st, batch, k.cycle.failing), k)
  {
  }

  lemma FailKeeps(c: Config, s: System, q: Process, k: Script)
    requires Going(c, s, q, Fail, k)
    ensures Keeps(c, s, q, k, Refused(s, q))
  {
    hide Inv, Sound, NextPending, NextExpired, PendingLegal, SecondHalf, VerifyByHash, Scan, Rest, UpdatedNow;
    if q.WriteExpired? {
      ExpireAllFirst(StoreOf(s), q.batch, k.cycle.failing);
      NextExpiredPromise(c, s.ledger, s.clock, StoreOf(s), q.batch[1..], k);
      ExpiredFits(c, s.clock, s.born, StoreOf(s), q.batch[1..], k);
    } else if Down(q, k) {
      NextPendingPromise(c, s.ledger, s.clock, StoreOf(s), q.caller.rest, k);
      PendingFits(c, s, q.caller.rest, k);
    }
  }

  lemma WriteKeeps(c: Config, s: System, q: Process, choice: Choice, k: Script)
    requires Going(c, s, q, choice, k) && Writes(q) && !choice.Fail?
    ensures Keeps(c, s, q, k, WriteMove(s, q, choice))
  {
    hide Keeps, WriteMove, Inv, Sound, Fits;
    if q.InsertRow? {
      InsertKeeps(c, s, q, choice, k);
    } else if q.DeleteRow? {
      DeleteKeeps(c, s, q, choice, k);
    } else if q.WriteSettled? {
      SettleKeeps(c, s, q, choice, k);
    } else if q.WriteExpired? {
      ExpireKeeps(c, s, q, choice, k);
    } else {
      RequestUpdateKeeps(c, s, q, choice, k);
    }
  }

  lemma ReadKeeps(c: Config, s: System, q: Process, choice: Choice, k: Script)
    requires Going(c, s, q, choice, k) && !Writes(q) && !choice.Fail? && !q.Emit?
    ensures Keeps(c, s, q, k, Unchanged(s, ReadMove(c, s, q, choice)))
  {
    hide Keeps, VerifyMove, RequestMove, Inv, Sound, Fits;
    if choice.Batch? {
      QueryKeeps(c, s, q, choice, k);
    } else if q.FetchPage? || q.FetchOwner? {
      ScanKeeps(c, s, q, choice, k);
    } else if Verifies(q) {
      FetchKeeps(c, s, q, choice, k);
    } else if q.LoadIntent? {
      LoadIntentKeeps(c, s, q, choice, k);
    } else if q.FindKey? || q.LoadAccount? || q.RefetchKey? {
      CreateRequestKeeps(c, s, q, choice, k);
    } else {
      ConsumerRequestKeeps(c, s, q, choice, k);
    }
  }

  lemma MoveKeeps(c: Config, s: System, q: Process, choice: Choice, k: Script)
    requires Going(c, s, q, choice, k) && !q.Emit?
    ensures Keeps(c, s, q, k, Move(c, s, q, choice))
  {
    hide Keeps, WriteMove, ReadMove, Inv, Sound, Fits;
    if choice.Fail? {
      FailKeeps(c, s, q, k);
    } else if Writes(q) {
      WriteKeeps(c, s, q, choice, k);
    } else {
      ReadKeeps(c, s, q, choice, k);
    }
  }

  /** A process of a reachable state, with a script that fits it. */
  ghost predicate Scripted(c: Config, s: System, p: nat, k: Script) {
    && Inv(s) && p < |s.processes| && Fits(c, s.clock, s.born, StoreOf(s), s.processes[p], k)
  }

  ghost function Promised(c: Config, s: System, p: nat, k: Script): S.Result
    requires p < |s.processes|
  {
    Promise(c, s.ledger, s.clock, StoreOf(s), s.processes[p], k)
  }

  lemma StepKeepsPromise(c: Config, s: System, p: nat, choice: Choice, k: Script)
    requires Scripted(c, s, p, k)
    requires Enabled(c, s, s.processes[p], choice) ==> Allowed(s.processes[p], choice, k)
    ensures var s' := Step(c, s, Advance(p, choice));
      Scripted(c, s', p, k) && Promised(c, s', p, k) == Promised(c, s, p, k)
  {
    hide Move, Inv, Allowed;
    var q := s.processes[p];
    StepKeepsInv(c, s, Advance(p, choice));
    if Enabled(c, s, q, choice) {
      if q.Emit? {
        EmitStep(c, s, p);
        OnlyProceeds(c, s, q, choice);
        EmitPromise(c, s, s.table, s.born, q.event, q.next, k);
        EmitBears(c, s, q);
      } else {
        SoundAt(s, p);
        MoveKeeps(c, s, q, choice, k);
      }
    }
  }

  lemma OnlyProceeds(c: Config, s: System, q: Process, choice: Choice)
    requires q.Emit? && Enabled(c, s, q, choice)
    ensures choice == Proceed
  {
  }

  lemma EmitBears(c: Config, s: System, q: Process)
    requires q.Emit?
    ensures Enabled(c, s, q, Proceed) && Move(c, s, q, Proceed) == Unchanged(s, q.next)
  {
  }

  lemma SoundAt(s: System, p: nat)
    requires Inv(s) && p < |s.processes|
    ensures Sound(s.ledger, s.born, s.processes[p])
  {
  }

  /** Every schedule of one process alone that goes by the script keeps what was promised. */
  lemma {:induction false} SoloKeepsPromise(c: Config, s: System, p: nat, choices: seq<Choice>, k: Script)
    requires Scripted(c, s, p, k) && ByScript(c, s, p, choices, k)
    ensures var s' := Solo(c, s, p, choices); Scripted(c, s', p, k) && Promised(c, s', p, k) == Promised(c, s, p, k)
    decreases |choices|
  {
    hide Step, Scripted, Promised, Allowed, Enabled;
    if choices != [] {
      assert p < |s.processes| by { assert Scripted(c, s, p, k); InRange(c, s, p, k); }
      StepKeepsPromise(c, s, p, choices[0], k);
      SoloKeepsPromise(c, Step(c, s, Advance(p, choices[0])), p, choices[1..], k);
    }
  }

  lemma InRange(c: Config, s: System, p: nat, k: Script)
    requires Scripted(c, s, p, k)
    ensures p < |s.processes|
  {
  }

  /** The answer of a process that is done. */
  ghost predicate Answers(s: System, p: nat, r: S.Result) {
    p < |s.processes| && s.processes[p].Done? ==> S.Result(StoreOf(s), s.processes[p].answer) == r
  }

  /** Whenever a schedule of one process alone comes to an end, store and answer are the promised ones. */
  lemma AloneIsPromised(c: Config, s: System, p: nat, choices: seq<Choice>, k: Script)
    requires Scripted(c, s, p, k) && ByScript(c, s, p, choices, k)
    ensures Answers(Solo(c, s, p, choices), p, Promised(c, s, p, k))
  {
    hide Solo, Inv;
    SoloKeepsPromise(c, s, p, choices, k);
  }

  // ── Every schedule comes to an end ─────────────────────────────────────────

  /** How many calls the observer may still make for n pending rows. */
  function RowCalls(c: Config, n: nat): nat { if n == 0 then 0 else c.scanLimit + 5 + RowCalls(c, n - 1) }

  function CallerCalls(c: Config, caller: Caller): nat { if caller.Observer? then RowCalls(c, |caller.rest|) else 0 }

  /** How many steps a process may still take. */
  function Remaining(c: Config, q: Process): nat {
    match q
    case FindKey(_) => 4
    case LoadAccount(_) => 3
    case InsertRow(_, _) => 2
    case RefetchKey(_) => 1
    case AuthorizePatch(_, _, _) => 3
    case WritePatch(_, _, _) => 2
    case AuthorizeRemoval(_, _) => 4
    case CheckRemoval(_, _) => 3
    case DeleteRow(_, _) => 2
    case LoadIntent(_, _, _) => 6
    case FetchTransaction(_, _, caller) => 5 + CallerCalls(c, caller)
    case FetchPayments(_, _, caller) => 4 + CallerCalls(c, caller)
    case FetchPage(_, caller) => c.scanLimit + 5 + CallerCalls(c, caller)
    case FetchOwner(_, page, caller) => 4 + |page| + CallerCalls(c, caller)
    case ReadSource(_, _, _, caller) => 3 + CallerCalls(c, caller)
    case WriteSettled(_, _, _, caller) => 2 + CallerCalls(c, caller)
    case WriteRejected(_, _, _) => 2
    case WriteExpired(batch) => 2 * |batch| + 2 + RowCalls(c, c.batchSize)
    case QueryOverdue => 2 * c.batchSize + 3 + RowCalls(c, c.batchSize)
    case QueryPending => 1 + RowCalls(c, c.batchSize)
    case Emit(_, next) => 1 + Remaining(c, next)
    case Done(_) => 0
  }

  lemma NextPendingCalls(c: Config, rest: seq<Intent>)
    ensures Remaining(c, NextPending(rest)) <= RowCalls(c, |rest|)
  {
  }

  lemma {:induction false} RowCallsGrow(c: Config, m: nat, n: nat)
    requires m <= n
    ensures RowCalls(c, m) <= RowCalls(c, n)
  {
    if m < n {
      RowCallsGrow(c, m, n - 1);
    }
  }

  lemma AfterInvalidCalls(c: Config, intent: Intent, txHash: string, reason: Reason, caller: Caller)
    ensures Remaining(c, AfterInvalid(intent, txHash, reason, caller)) <= 2 + CallerCalls(c, caller)
  {
    if caller.Observer? {
      NextPendingCalls(c, caller.rest);
    }
  }

  lemma {:induction false} SeekMatchCalls(c: Config, intent: Intent, page: seq<Operation>, caller: Caller)
    ensures Remaining(c, SeekMatch(intent, page, caller)) <= 4 + |page| + CallerCalls(c, caller)
  {
    if page == [] {
      AfterInvalidCalls(c, intent, "", NOT_YET, caller);
    } else if !PaymentMatches(intent, page[0]) {
      SeekMatchCalls(c, intent, page[1..], caller);
    }
  }

  lemma FailureCalls(c: Config, q: Process)
    requires !q.Emit? && !q.Done?
    ensures Remaining(c, AfterFailure(q)) < Remaining(c, q)
  {
    hide NextPending;
    if q.FetchTransaction? || q.FetchPayments? || q.FetchPage? || q.FetchOwner? || q.ReadSource? || q.WriteSettled? {
      if q.caller.Observer? {
        NextPendingCalls(c, q.caller.rest);
      }
    }
  }

  lemma VerifyCalls(c: Config, s: System, q: Process)
    requires Verifies(q) && (q.FetchOwner? ==> q.page != [])
    ensures Remaining(c, VerifyMove(c, s, q)) < Remaining(c, q)
  {
    hide AfterInvalid, SeekMatch, AfterFailure, FirstMatch, FirstPage, MemoMatches, Lookup, RecentPage;
    FailureCalls(c, q);
    match q
    case FetchTransaction(intent, txHash, caller) =>
      AfterInvalidCalls(c, intent, txHash, NOT_FOUND, caller);
      AfterInvalidCalls(c, intent, txHash, FAILED_ON_CHAIN, caller);
      AfterInvalidCalls(c, intent, txHash, MEMO_MISMATCH, caller);
    case FetchPayments(intent, tx, caller) => AfterInvalidCalls(c, intent, tx.hash, NO_PAYMENT, caller);
    case FetchPage(intent, caller) =>
      PageIsLimited(s.ledger, intent.network, intent.destination, c.scanLimit);
      SeekMatchCalls(c, intent, RecentPage(s.ledger, intent.network, intent.destination, c.scanLimit), caller);
    case FetchOwner(intent, page, caller) =>
      SeekMatchCalls(c, intent, page[1..], caller);
      AfterInvalidCalls(c, intent, "", NOT_YET, caller);
    case ReadSource(_, _, _, _) =>
  }

  lemma PageIsLimited(ledger: Ledger, network: Network, account: string, limit: nat)
    ensures |RecentPage(ledger, network, account, limit)| <= limit
  {
  }

  lemma UpdateCalls(c: Config, q: Process)
    requires Updates(q)
    ensures 1 + Remaining(c, AfterUpdate(q)) < Remaining(c, q)
  {
    hide NextPending;
    if q.WriteSettled? && q.caller.Observer? {
      NextPendingCalls(c, q.caller.rest);
    }
  }

  lemma WriteCalls(c: Config, s: System, q: Process, choice: Choice)
    requires Writes(q) && (q.InsertRow? ==> choice.Fresh?)
    ensures Remaining(c, WriteMove(s, q, choice).next) < Remaining(c, q)
  {
    hide AfterUpdate, AfterFailure, Announcement, Rewritten, Marked, Target, HashTaken, KeyTaken;
    FailureCalls(c, q);
    if q.InsertRow? {
      EmitCalls(c, Done(Created(q.request.consumer, q.request.memo, choice.id)));
    } else if q.DeleteRow? {
      EmitCalls(c, Done(Removed(q.id)));
    } else {
      UpdateCalls(c, q);
      EmitCalls(c, AfterUpdate(q));
    }
  }

  lemma EmitCalls(c: Config, next: Process)
    ensures forall event: Event :: Remaining(c, Emit(event, next)) == 1 + Remaining(c, next)
    ensures next.Done? ==> Remaining(c, next) == 0
  {
  }

  lemma QueryCalls(c: Config, s: System, q: Process, choice: Choice)
    requires Enabled(c, s, q, choice) && choice.Batch?
    ensures Remaining(c, ReadMove(c, s, q, choice)) < Remaining(c, q)
  {
    hide NextPending, OverdueIds, PendingIds, Distinct;
    NextPendingCalls(c, Rows(s.table, choice.ids));
    RowCallsGrow(c, |choice.ids|, c.batchSize);
  }

  /** Every step of a process brings it closer to its end. */
  lemma MoveCalls(c: Config, s: System, q: Process, choice: Choice)
    requires Enabled(c, s, q, choice)
    ensures Remaining(c, Move(c, s, q, choice).next) < Remaining(c, q)
  {
    hide WriteMove, VerifyMove, AfterFailure, OldestBatch, AnyBatch;
    if choice.Fail? {
      FailureCalls(c, q);
    } else if Writes(q) {
      WriteCalls(c, s, q, choice);
    } else if choice.Batch? {
      QueryCalls(c, s, q, choice);
    } else if Verifies(q) {
      VerifyCalls(c, s, q);
    }
  }

  /** Choices that all have an effect. */
  ghost predicate AllEnabled(c: Config, s: System, p: nat, choices: seq<Choice>)
    decreases |choices|
  {
    choices == [] || (
      && p < |s.processes| && Enabled(c, s, s.processes[p], choices[0])
      && AllEnabled(c, Step(c, s, Advance(p, choices[0])), p, choices[1..]))
  }

  /** No process, alone, takes more than this many steps. */
  lemma {:induction false} SoloEnds(c: Config, s: System, p: nat, choices: seq<Choice>)
    requires p < |s.processes| && AllEnabled(c, s, p, choices)
    ensures |choices| <= Remaining(c, s.processes[p])
    decreases |choices|
  {
    hide Enabled, Move, Remaining;
    if choices != [] {
      MoveCalls(c, s, s.processes[p], choices[0]);
      SoloEnds(c, Step(c, s, Advance(p, choices[0])), p, choices[1..]);
    }
  }

  /** Until it is done, a process has a step the script leaves. */
  lemma ScriptGoesOn(c: Config, s: System, p: nat, k: Script) returns (choice: Choice)
    requires Scripted(c, s, p, k) && !s.processes[p].Done?
    ensures Enabled(c, s, s.processes[p], choice) && Allowed(s.processes[p], choice, k)
  {
    hide Consistent, RowsKnown, Backed, WellFormedLedger, AnyBatch, OldestBatch, OverdueIds;
    var q := s.processes[p];
    SoundAt(s, p);
    choice := if q.InsertRow? then Fresh(k.id)
              else if q.QueryOverdue? then Batch(k.cycle.overdue)
              else if q.QueryPending? then Batch(k.cycle.pending)
              else if (q.LoadAccount? && !k.builds) || MarkFails(q, k) || (q.WriteSettled? && Down(q, k)) then Fail
              else Proceed;
  }

  /** So every process can be advanced, alone and by its script, until it is done. */
  lemma {:induction false} SoloCompletes(c: Config, s: System, p: nat, k: Script) returns (choices: seq<Choice>)
    requires Scripted(c, s, p, k)
    ensures ByScript(c, s, p, choices, k)
    ensures var s' := Solo(c, s, p, choices); p < |s'.processes| && s'.processes[p].Done?
    decreases Remaining(c, s.processes[p])
  {
    hide Enabled, Move, Remaining, Allowed, Scripted;
    InRange(c, s, p, k);
    choices := [];
    if !s.processes[p].Done? {
      var choice := ScriptGoesOn(c, s, p, k);
      StepKeepsPromise(c, s, p, choice, k);
      MoveCalls(c, s, s.processes[p], choice);
      var rest := SoloCompletes(c, Step(c, s, Advance(p, choice)), p, k);
      choices := [choice] + rest;
      assert choices[1..] == rest;
    }
  }

  // ── Operation by operation ─────────────────────────────────────────────────

  /** createTx and createPay on a reachable state, with the id the database draws. */
  lemma CreateAlone(c: Config, s: System, p: nat, choices: seq<Choice>, k: Script, q: CreateRequest)
    requires Inv(s) && p < |s.processes| && s.processes[p] == FindKey(q) && k.id !in s.born
        && ByScript(c, s, p, choices, k)
    ensures k.id !in s.table
    ensures Answers(Solo(c, s, p, choices), p, S.Create(StoreOf(s), q, k.id, s.clock, s.clock + c.ttl, k.builds))
  {
    hide Inv, Solo, ByScript, Answers;
    IdIsFree(s, k.id);
    AloneIsPromised(c, s, p, choices, k);
  }

  lemma PatchAlone(c: Config, s: System, p: nat, choices: seq<Choice>, k: Script, consumer: string, id: string,
                   patch: Patch)
    requires Inv(s) && p < |s.processes| && s.processes[p] == AuthorizePatch(consumer, id, patch)
        && ByScript(c, s, p, choices, k)
    ensures Answers(Solo(c, s, p, choices), p, S.PatchIntent(StoreOf(s), consumer, id, patch))
  {
    hide Inv, Solo, ByScript, Answers;
    AloneIsPromised(c, s, p, choices, k);
  }

  lemma RemoveAlone(c: Config, s: System, p: nat, choices: seq<Choice>, k: Script, consumer: string, id: string)
    requires Inv(s) && p < |s.processes| && s.processes[p] == AuthorizeRemoval(consumer, id)
        && ByScript(c, s, p, choices, k)
    ensures Answers(Solo(c, s, p, choices), p, S.Remove(StoreOf(s), consumer, id))
  {
    hide Inv, Solo, ByScript, Answers;
    AloneIsPromised(c, s, p, choices, k);
  }

  /** validate, from its first read to its answer. */
  lemma ValidateAlone(c: Config, s: System, p: nat, choices: seq<Choice>, k: Script, consumer: string, id: string,
                      txHash: string)
    requires Inv(s) && p < |s.processes| && s.processes[p] == LoadIntent(consumer, id, txHash)
        && ByScript(c, s, p, choices, k)
    ensures Answers(Solo(c, s, p, choices), p, S.Validate(c, s.ledger, StoreOf(s), consumer, id, txHash))
  {
    hide Inv, Solo, ByScript, Answers;
    AloneIsPromised(c, s, p, choices, k);
  }

  /** verifyByHash, call by call, and what its verdict leads to. */
  lemma LookupAlone(c: Config, s: System, p: nat, choices: seq<Choice>, k: Script, intent: Intent, txHash: string,
                    caller: Caller)
    requires Inv(s) && p < |s.processes| && s.processes[p] == FetchTransaction(intent, txHash, caller)
        && ByScript(c, s, p, choices, k)
    ensures Answers(Solo(c, s, p, choices), p,
                    Concluding(c, s.ledger, StoreOf(s), intent, txHash,
                               VerifyByHash(s.ledger, c.pageSize, intent, txHash), caller, k))
  {
    hide Inv, Solo, ByScript, Answers;
    AloneIsPromised(c, s, p, choices, k);
  }

  /** findMatchingPayment, call by call, and what its verdict leads to. */
  lemma ScanAlone(c: Config, s: System, p: nat, choices: seq<Choice>, k: Script, intent: Intent, caller: Caller)
    requires Inv(s) && p < |s.processes| && s.processes[p] == FetchPage(intent, caller) && ByScript(c, s, p, choices, k)
    ensures Answers(Solo(c, s, p, choices), p,
                    Scanning(c, s.ledger, StoreOf(s), intent,
                             RecentPage(s.ledger, intent.network, intent.destination, c.scanLimit), caller, k))
  {
    hide Inv, Solo, ByScript, Answers;
    AloneIsPromised(c, s, p, choices, k);
  }

  /** A whole observer cycle. */
  lemma TickAlone(c: Config, s: System, p: nat, choices: seq<Choice>, k: Script)
    requires Inv(s) && p < |s.processes| && s.processes[p] == QueryOverdue && ByScript(c, s, p, choices, k)
    requires k.cycle.now == s.clock && S.LegalCycle(c, StoreOf(s), k.cycle)
    ensures Answers(Solo(c, s, p, choices), p, S.Result(S.Tick(c, s.ledger, StoreOf(s), k.cycle), CycleEnded))
  {
    hide Inv, Solo, ByScript, Answers;
    AloneIsPromised(c, s, p, choices, k);
  }
}
