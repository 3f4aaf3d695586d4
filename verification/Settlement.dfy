/** Safety of settlement in every run, whatever the order of the steps. */
module Settlement {
  import opened Wrappers
  import opened Decimals
  import opened Assets
  import opened Intents
  import opened Verifier
  import opened Lifecycle

  /** A row or snapshot still on the terms it was created with. */
  ghost predicate Known(born: map<string, Intent>, row: Intent) {
    row.id in born && SameTerms(born[row.id], row)
  }

  ghost predicate AllKnown(born: map<string, Intent>, rows: seq<Intent>) {
    forall i | 0 <= i < |rows| :: Known(born, rows[i])
  }

  /** The observer's queries return unpaid rows only. */
  predicate Unpaid(rows: seq<Intent>) { forall i | 0 <= i < |rows| :: rows[i].status != SUCCEEDED }

  ghost predicate KnownCaller(born: map<string, Intent>, caller: Caller) {
    caller.Observer? ==> AllKnown(born, caller.rest) && Unpaid(caller.rest)
  }

  /** What a process has established so far, and no other process can undo. */
  ghost predicate Sound(ledger: Ledger, born: map<string, Intent>, q: Process) {
    match q
    case FindKey(request) => ValidRequest(request)
    case LoadAccount(request) => ValidRequest(request)
    case InsertRow(request, _) => ValidRequest(request)
    case FetchTransaction(intent, _, caller) => Known(born, intent) && KnownCaller(born, caller)
        && intent.status != SUCCEEDED
    case FetchPayments(intent, tx, caller) =>
      && Known(born, intent) && KnownCaller(born, caller)
      && tx in ledger && tx.network == intent.network && tx.successful
      && MemoMatches(intent, tx.memoType, tx.memo)
    case FetchPage(intent, caller) => Known(born, intent) && KnownCaller(born, caller)
    case FetchOwner(intent, page, caller) =>
      && Known(born, intent) && KnownCaller(born, caller)
      && PageOf(ledger, intent.network, page) && page != [] && PaymentMatches(intent, page[0])
    case ReadSource(intent, txHash, _, caller) =>
      Known(born, intent) && KnownCaller(born, caller) && Fulfils(ledger, intent, txHash)
    case WriteSettled(intent, txHash, _, caller) =>
      Known(born, intent) && KnownCaller(born, caller) && Fulfils(ledger, intent, txHash)
    case WriteRejected(intent, _, _) => Known(born, intent) && intent.status != SUCCEEDED
    case WriteExpired(batch) => AllKnown(born, batch) && Unpaid(batch)
    case Emit(_, next) => Sound(ledger, born, next)
    case _ => true
  }

  /** A paid row whose SUCCEEDED is not a PATCH's word names a transaction that fulfils it. */
  ghost predicate Backed(s: System, row: Intent) {
    row.status == SUCCEEDED && row.id !in s.patched
    ==> row.txHash.Some? && Fulfils(s.ledger, row, row.txHash.value)
  }

  ghost predicate RowsKnown(s: System) {
    && (forall id | id in s.born :: s.born[id].id == id)
    && forall id | id in s.table :: Known(s.born, s.table[id])
  }

  ghost predicate Inv(s: System) {
    && Consistent(s.table) && WellFormedLedger(s.ledger) && RowsKnown(s)
    && (forall id | id in s.table :: Backed(s, s.table[id]))
    && forall p | 0 <= p < |s.processes| :: Sound(s.ledger, s.born, s.processes[p])
  }

  lemma KnownStable(born: map<string, Intent>, more: map<string, Intent>, rows: seq<Intent>)
    requires forall id | id in born :: id in more && more[id] == born[id]
    requires AllKnown(born, rows)
    ensures AllKnown(more, rows)
  {
    forall i | 0 <= i < |rows| ensures Known(more, rows[i]) {
      assert Known(born, rows[i]);
    }
  }

  lemma PageStable(ledger: Ledger, longer: Ledger, network: Network, page: seq<Operation>)
    requires ledger <= longer && PageOf(ledger, network, page)
    ensures PageOf(longer, network, page)
  {
    forall op | op in page ensures OnLedger(longer, network, op) {
      var tx :| tx in ledger && tx.network == network && op in tx.operations;
      assert tx in longer;
    }
  }

  /** What one process has established survives every step of the others. */
  lemma {:induction false} SoundStable(ledger: Ledger, longer: Ledger, born: map<string, Intent>,
                                       more: map<string, Intent>, q: Process)
    requires ledger <= longer
    requires forall id | id in born :: id in more && more[id] == born[id]
    requires Sound(ledger, born, q)
    ensures Sound(longer, more, q)
  {
    match q
    case FetchTransaction(intent, _, caller) => CallerStable(born, more, caller);
    case FetchPayments(intent, tx, caller) => CallerStable(born, more, caller);
    case FetchPage(intent, caller) => CallerStable(born, more, caller);
    case FetchOwner(intent, page, caller) =>
      CallerStable(born, more, caller);
      PageStable(ledger, longer, intent.network, page);
    case ReadSource(intent, txHash, _, caller) =>
      CallerStable(born, more, caller);
      FulfilsStable(ledger, longer, intent, intent, txHash);
    case WriteSettled(intent, txHash, _, caller) =>
      CallerStable(born, more, caller);
      FulfilsStable(ledger, longer, intent, intent, txHash);
    case WriteExpired(batch) => KnownStable(born, more, batch);
    case Emit(_, next) => SoundStable(ledger, longer, born, more, next);
    case _ =>
  }

  lemma CallerStable(born: map<string, Intent>, more: map<string, Intent>, caller: Caller)
    requires forall id | id in born :: id in more && more[id] == born[id]
    requires KnownCaller(born, caller)
    ensures KnownCaller(more, caller)
  {
    if caller.Observer? {
      KnownStable(born, more, caller.rest);
    }
  }

  // ── One step ───────────────────────────────────────────────────────────────

  lemma NextPendingSound(ledger: Ledger, born: map<string, Intent>, rest: seq<Intent>)
    requires AllKnown(born, rest) && Unpaid(rest)
    ensures Sound(ledger, born, NextPending(rest))
  {
  }

  lemma AfterInvalidSound(ledger: Ledger, born: map<string, Intent>, intent: Intent, txHash: string, reason: Reason,
                          caller: Caller)
    requires Known(born, intent) && KnownCaller(born, caller)
    requires reason == FAILED_ON_CHAIN ==> intent.status != SUCCEEDED
    ensures Sound(ledger, born, AfterInvalid(intent, txHash, reason, caller))
  {
    if caller.Observer? {
      NextPendingSound(ledger, born, caller.rest);
    }
  }

  lemma {:induction false} SeekMatchSound(ledger: Ledger, born: map<string, Intent>, intent: Intent,
                                          page: seq<Operation>, caller: Caller)
    requires Known(born, intent) && KnownCaller(born, caller) && PageOf(ledger, intent.network, page)
    ensures Sound(ledger, born, SeekMatch(intent, page, caller))
  {
    if page == [] {
      AfterInvalidSound(ledger, born, intent, "", NOT_YET, caller);
    } else if !PaymentMatches(intent, page[0]) {
      SeekMatchSound(ledger, born, intent, page[1..], caller);
    }
  }

  lemma AfterFailureSound(s: System, q: Process)
    requires Sound(s.ledger, s.born, q) && !q.Emit?
    ensures Sound(s.ledger, s.born, AfterFailure(q))
  {
    match q
    case FetchTransaction(_, _, Observer(rest)) => NextPendingSound(s.ledger, s.born, rest);
    case FetchPayments(_, _, Observer(rest)) => NextPendingSound(s.ledger, s.born, rest);
    case FetchPage(_, Observer(rest)) => NextPendingSound(s.ledger, s.born, rest);
    case FetchOwner(_, _, Observer(rest)) => NextPendingSound(s.ledger, s.born, rest);
    case ReadSource(_, _, _, Observer(rest)) => NextPendingSound(s.ledger, s.born, rest);
    case WriteSettled(_, _, _, Observer(rest)) => NextPendingSound(s.ledger, s.born, rest);
    case _ =>
  }

  /** The steps that read: the process learns only what holds. */
  lemma VerifySound(c: Config, s: System, q: Process)
    requires Inv(s) && Sound(s.ledger, s.born, q) && Verifies(q)
    ensures Sound(s.ledger, s.born, VerifyMove(c, s, q))
  {
    hide AfterInvalid, SeekMatch, FirstMatch, FirstPage, MemoMatches, PaymentMatches, Fulfils;
    hide Known, Consistent, RowsKnown, Backed, KnownCaller;
    match q
    case FetchTransaction(intent, txHash, caller) =>
      AfterInvalidSound(s.ledger, s.born, intent, txHash, NOT_FOUND, caller);
      AfterInvalidSound(s.ledger, s.born, intent, txHash, FAILED_ON_CHAIN, caller);
      AfterInvalidSound(s.ledger, s.born, intent, txHash, MEMO_MISMATCH, caller);
    case FetchPayments(intent, tx, caller) =>
      AfterInvalidSound(s.ledger, s.born, intent, tx.hash, NO_PAYMENT, caller);
      PaymentsFulfil(s.ledger, intent, tx, c.pageSize);
    case FetchPage(intent, caller) =>
      SeekMatchSound(s.ledger, s.born, intent, RecentPage(s.ledger, intent.network, intent.destination, c.scanLimit),
                     caller);
    case FetchOwner(intent, page, caller) =>
      AfterFailureSound(s, q);
      AfterInvalidSound(s.ledger, s.born, intent, "", NOT_YET, caller);
      SeekMatchSound(s.ledger, s.born, intent, page[1..], caller);
      OwnerFulfils(s.ledger, intent, page[0]);
    case ReadSource(_, _, _, _) =>
  }

  lemma BatchUnpaid(s: System, eligible: set<string>, take: nat, ids: seq<string>)
    requires RowsKnown(s) && AnyBatch(s.table, eligible, take, ids)
    requires forall id | id in eligible && id in s.table :: s.table[id].status != SUCCEEDED
    ensures AllKnown(s.born, Rows(s.table, ids)) && Unpaid(Rows(s.table, ids))
  {
    forall i | 0 <= i < |ids|
      ensures Known(s.born, Rows(s.table, ids)[i]) && Rows(s.table, ids)[i].status != SUCCEEDED {
      assert ids[i] in ids;
    }
  }

  lemma RequestSound(c: Config, s: System, q: Process)
    requires RowsKnown(s) && Sound(s.ledger, s.born, q) && !q.Emit?
    ensures Sound(s.ledger, s.born, RequestMove(c, s, q))
  {
    hide ValidRequest;
  }

  lemma ReadSound(c: Config, s: System, q: Process, choice: Choice)
    requires Inv(s) && Sound(s.ledger, s.born, q) && Enabled(c, s, q, choice) && !Writes(q) && !choice.Fail?
    ensures Sound(s.ledger, s.born, ReadMove(c, s, q, choice))
  {
    hide Consistent, WellFormedLedger, Backed, VerifyMove, RequestMove, NextPending, NextExpired, Fulfils, Known;
    if q.QueryOverdue? {
      BatchUnpaid(s, OverdueIds(s.table, s.clock), c.batchSize, choice.ids);
      NextExpiredSound(s.ledger, s.born, Rows(s.table, choice.ids));
    } else if q.QueryPending? {
      BatchUnpaid(s, PendingIds(s.table), c.batchSize, choice.ids);
      NextPendingSound(s.ledger, s.born, Rows(s.table, choice.ids));
    } else if Verifies(q) {
      VerifySound(c, s, q);
    } else if !q.Emit? {
      RequestSound(c, s, q);
    }
  }

  lemma NextExpiredSound(ledger: Ledger, born: map<string, Intent>, batch: seq<Intent>)
    requires AllKnown(born, batch) && Unpaid(batch)
    ensures Sound(ledger, born, NextExpired(batch))
  {
  }

  lemma PaymentsFulfil(ledger: Ledger, intent: Intent, tx: Transaction, pageSize: nat)
    requires tx in ledger && tx.network == intent.network && tx.successful && MemoMatches(intent, tx.memoType, tx.memo)
    ensures FirstMatch(intent, FirstPage(tx, pageSize)).Some? ==> Fulfils(ledger, intent, tx.hash)
  {
    if FirstMatch(intent, FirstPage(tx, pageSize)).Some? {
      assert Carries(tx, intent, tx.hash);
    }
  }

  lemma OwnerFulfils(ledger: Ledger, intent: Intent, op: Operation)
    requires WellFormedLedger(ledger) && OnLedger(ledger, intent.network, op) && PaymentMatches(intent, op)
    ensures var tx := Lookup(ledger, intent.network, op.txHash);
      tx.Some? && tx.value.successful && MemoMatches(intent, tx.value.memoType, tx.value.memo)
      ==> Fulfils(ledger, intent, op.txHash)
  {
    var owner :| owner in ledger && owner.network == intent.network && op in owner.operations;
    LookupFinds(ledger, owner);
    if owner.successful && MemoMatches(intent, owner.memoType, owner.memo) {
      assert Carries(owner, intent, op.txHash);
    }
  }

  /** The table part of the invariant, after a step's effect. */
  ghost predicate TableInv(s: System, e: Effect) {
    && Consistent(e.table)
    && (forall id | id in s.born :: id in e.born && e.born[id] == s.born[id])
    && RowsKnown(s.(table := e.table, born := e.born))
    && (forall id | id in e.table :: Backed(s.(patched := e.patched), e.table[id]))
    && Sound(s.ledger, e.born, e.next)
  }

  lemma GoneSound(s: System, q: Process)
    requires Inv(s) && Sound(s.ledger, s.born, q) && !q.Emit?
    ensures TableInv(s, Refused(s, q))
  {
    AfterFailureSound(s, q);
  }

  /** No update touches the terms of its row. */
  lemma TermsKept(q: Process, row: Intent)
    requires Updates(q)
    ensures SameTerms(row, Rewritten(q, row)) && Rewritten(q, row).id == row.id
  {
  }

  lemma AfterUpdateSound(s: System, q: Process)
    requires Sound(s.ledger, s.born, q) && Updates(q)
    ensures Sound(s.ledger, s.born, AfterUpdate(q))
  {
    if q.WriteSettled? && q.caller.Observer? {
      NextPendingSound(s.ledger, s.born, q.caller.rest);
    }
  }

  /** What an update leaves is backed: it settled on what was verified, or left the row unpaid, or moved
      neither status nor hash, or is on the list. */
  lemma RewrittenBacked(s: System, q: Process, row: Intent)
    requires Sound(s.ledger, s.born, q) && Updates(q) && Target(q) == row.id && Known(s.born, row) && Backed(s, row)
    ensures Backed(s.(patched := Marked(q, Rewritten(q, row), s.patched)), Rewritten(q, row))
  {
    if q.WriteSettled? {
      FulfilsStable(s.ledger, s.ledger, q.intent, Rewritten(q, row), q.txHash);
    } else if q.WritePatch? && row.status == SUCCEEDED && row.id !in s.patched {
      FulfilsStable(s.ledger, s.ledger, row, Rewritten(q, row), row.txHash.value);
    }
  }

  /** One row rewritten on its terms, and a list of exempt rows that loses no other. */
  lemma RewriteSound(s: System, row: Intent, patched: set<string>, event: Event, next: Process)
    requires Inv(s) && row.id in s.table && SameTerms(s.table[row.id], row) && Write(s.table, row).Some?
    requires Backed(s.(patched := patched), row) && s.patched - {row.id} <= patched
    requires Sound(s.ledger, s.born, next)
    ensures TableInv(s, Effect(Write(s.table, row).value, s.born, patched, Emit(event, next)))
  {
    hide Fulfils, WellFormedRow, Sound, UniqueKeys, UniqueHashes;
    WriteKeepsConsistent(s.table, row);
    assert Known(s.born, s.table[row.id]);
    EmitSound(s.ledger, s.born, event, next);
  }

  lemma AnsweredSound(ledger: Ledger, born: map<string, Intent>, answer: Answer)
    ensures forall event: Event :: Sound(ledger, born, Emit(event, Done(answer)))
  {
  }

  lemma EmitSound(ledger: Ledger, born: map<string, Intent>, event: Event, next: Process)
    ensures Sound(ledger, born, Emit(event, next)) == Sound(ledger, born, next)
  {
  }

  lemma UpdateSound(s: System, q: Process)
    requires Inv(s) && Sound(s.ledger, s.born, q) && Updates(q)
    ensures TableInv(s, Updating(s, q))
  {
    hide TableInv, Rewritten, Marked, AfterUpdate, Announcement, Target, Sound, Backed, Consistent, SameTerms,
         AfterFailure;
    GoneSound(s, q);
    var id := Target(q);
    if id in s.table {
      var row := s.table[id];
      var after := Rewritten(q, row);
      assert Known(s.born, row) && row.id == id by { assert RowsKnown(s); KeyedTable(s, id); }
      TermsKept(q, row);
      AfterUpdateSound(s, q);
      RewrittenBacked(s, q, row);
      MarkedLosesOnly(q, after, s.patched);
      if Write(s.table, after).Some? {
        RewriteSound(s, after, Marked(q, after, s.patched), Announcement(q, after), AfterUpdate(q));
      }
    }
  }

  lemma KeyedTable(s: System, id: string)
    requires Inv(s) && id in s.table
    ensures s.table[id].id == id
  {
  }

  lemma MarkedLosesOnly(q: Process, row: Intent, patched: set<string>)
    requires Updates(q)
    ensures patched - {row.id} <= Marked(q, row, patched)
  {
  }

  /** A step that leaves the table alone. */
  lemma StillSound(s: System, next: Process)
    requires Inv(s) && Sound(s.ledger, s.born, next)
    ensures TableInv(s, Effect(s.table, s.born, s.patched, next))
  {
    hide Consistent, Known, Backed, Sound;
    assert s.(table := s.table, born := s.born) == s == s.(patched := s.patched);
  }

  lemma IdIsFree(s: System, id: string)
    requires Inv(s) && id !in s.born
    ensures id !in s.table
  {
    assert id in s.table ==> Known(s.born, s.table[id]);
  }

  lemma InsertSound(s: System, request: CreateRequest, expiresAt: int, id: string)
    requires Inv(s) && ValidRequest(request) && id !in s.born
    ensures TableInv(s, Inserted(s, request, expiresAt, id))
  {
    hide Consistent, RowsKnown, Backed, HashTaken, KeyTaken, WellFormedLedger, ValidRequest, WellFormedRow, Sound;
    var row := NewRow(request, id, s.clock, expiresAt);
    IdIsFree(s, id);
    if Insert(s.table, row).Some? {
      NewRowIsWellFormed(request, id, s.clock, expiresAt);
      InsertKeepsConsistent(s.table, row);
      BornSound(s, row);
      AnsweredSound(s.ledger, s.born[id := row], Created(request.consumer, request.memo, id));
      assert s.(patched := s.patched) == s;
    } else {
      RefetchSound(s, request);
      StillSound(s, RefetchKey(request));
    }
  }

  lemma RefetchSound(s: System, request: CreateRequest)
    ensures Sound(s.ledger, s.born, RefetchKey(request))
  {
  }

  lemma BornSound(s: System, row: Intent)
    requires Inv(s) && row.id !in s.born && row.id !in s.table && row.status == PENDING
    ensures RowsKnown(s.(table := s.table[row.id := row], born := s.born[row.id := row]))
    ensures var t := s.table[row.id := row]; forall id | id in t :: Backed(s, t[id])
  {
    forall i | i in s.table ensures Known(s.born[row.id := row], s.table[i]) {
      assert Known(s.born, s.table[i]);
    }
  }

  lemma DeleteSound(s: System, q: Process)
    requires Inv(s) && Sound(s.ledger, s.born, q) && q.DeleteRow?
    ensures TableInv(s, Deleting(s, q))
  {
    hide Fulfils, WellFormedRow, UniqueKeys, UniqueHashes, Sound, AfterFailure;
    GoneSound(s, q);
    AnsweredSound(s.ledger, s.born, Removed(q.id));
    DeleteKeepsConsistent(s.table, q.id);
  }

  lemma WriteSound(s: System, q: Process, choice: Choice)
    requires Inv(s) && Sound(s.ledger, s.born, q) && Writes(q)
    requires q.InsertRow? ==> choice.Fresh? && choice.id !in s.born
    ensures TableInv(s, WriteMove(s, q, choice))
  {
    hide TableInv, Inv, Inserted, Deleting, Updating;
    if q.InsertRow? {
      InsertSound(s, q.request, q.expiresAt, choice.id);
    } else if q.DeleteRow? {
      DeleteSound(s, q);
    } else {
      UpdateSound(s, q);
    }
  }

  lemma MoveSound(c: Config, s: System, q: Process, choice: Choice)
    requires Inv(s) && Sound(s.ledger, s.born, q) && Enabled(c, s, q, choice)
    ensures TableInv(s, Move(c, s, q, choice))
  {
    if choice.Fail? {
      AfterFailureSound(s, q);
    } else if Writes(q) {
      WriteSound(s, q, choice);
    } else {
      ReadSound(c, s, q, choice);
    }
  }

  lemma StepKeepsInv(c: Config, s: System, action: Action)
    requires Inv(s)
    ensures Inv(Step(c, s, action))
  {
    hide Move, Enabled, Sound, Consistent, Fulfils, Known, Arrival;
    var s' := Step(c, s, action);
    match action
    case LedgerGrows(tx) =>
      LedgerStep(s, s');
    case Advance(p, choice) =>
      if p < |s.processes| && Enabled(c, s, s.processes[p], choice) {
        MoveSound(c, s, s.processes[p], choice);
        forall r | 0 <= r < |s'.processes| ensures Sound(s'.ledger, s'.born, s'.processes[r]) {
          if r != p {
            SoundStable(s.ledger, s.ledger, s.born, s'.born, s.processes[r]);
          }
        }
      }
    case Arrive(request) => ArrivalSound(s.ledger, s.born, request);
    case TimerFires => ArrivalSound(s.ledger, s.born, QueryOverdue);
    case _ =>
  }

  lemma ArrivalSound(ledger: Ledger, born: map<string, Intent>, q: Process)
    ensures Arrival(q) || q.QueryOverdue? ==> Sound(ledger, born, q)
  {
  }

  lemma LedgerStep(s: System, s': System)
    requires Inv(s) && WellFormedLedger(s'.ledger) && s.ledger <= s'.ledger && s' == s.(ledger := s'.ledger)
    ensures Inv(s')
  {
    forall id | id in s'.table ensures Backed(s', s'.table[id]) {
      assert Backed(s, s.table[id]);
      var row := s.table[id];
      if row.status == SUCCEEDED && id !in s.patched {
        FulfilsStable(s.ledger, s'.ledger, row, row, row.txHash.value);
      }
    }
    forall r | 0 <= r < |s'.processes| ensures Sound(s'.ledger, s'.born, s'.processes[r]) {
      SoundStable(s.ledger, s'.ledger, s.born, s.born, s.processes[r]);
    }
  }

  lemma {:induction false} RunKeepsInv(c: Config, actions: seq<Action>)
    ensures Inv(Run(c, actions))
  {
    if actions != [] {
      RunKeepsInv(c, actions[..|actions| - 1]);
      StepKeepsInv(c, Run(c, actions[..|actions| - 1]), actions[|actions| - 1]);
    }
  }

  // ── What it means ──────────────────────────────────────────────────────────

  /** Every PATCH that arrives is a safe one. */
  ghost predicate SafePatchesOnly(actions: seq<Action>) {
    forall i | 0 <= i < |actions| :: actions[i].Arrive? ==> Harmless(actions[i].request)
  }

  ghost predicate Harmless(q: Process) {
    match q
    case AuthorizePatch(_, _, patch) => SafePatch(patch)
    case WritePatch(_, _, patch) => SafePatch(patch)
    case Emit(_, next) => Harmless(next)
    case _ => true
  }

  lemma HarmlessUpdate(q: Process, row: Intent)
    requires Harmless(q) && Updates(q)
    ensures Marked(q, Rewritten(q, row), {}) == {} && Harmless(AfterUpdate(q))
  {
  }

  lemma HarmlessFailure(q: Process)
    requires Harmless(q)
    ensures Harmless(AfterFailure(q))
  {
  }

  lemma HarmlessWrite(s: System, q: Process, choice: Choice)
    requires Harmless(q) && Writes(q) && (q.InsertRow? ==> choice.Fresh?) && s.patched == {}
    ensures WriteMove(s, q, choice).patched == {} && Harmless(WriteMove(s, q, choice).next)
  {
    hide Rewritten, Marked, AfterUpdate, AfterFailure, Announcement, Target, HashTaken, KeyTaken;
    HarmlessFailure(q);
    if Updates(q) && Target(q) in s.table {
      HarmlessUpdate(q, s.table[Target(q)]);
    }
    assert Harmless(WriteMove(s, q, choice).next);
  }

  lemma HarmlessRead(c: Config, s: System, q: Process, choice: Choice)
    requires Harmless(q) && Enabled(c, s, q, choice) && !Writes(q) && !choice.Fail?
    ensures Harmless(ReadMove(c, s, q, choice))
  {
    hide SeekMatch, Lookup, FirstMatch, MemoMatches, AnyBatch, OldestBatch, Rows;
    HarmlessFailure(q);
    if q.FetchPage? {
      HarmlessSeek(q.intent, RecentPage(s.ledger, q.intent.network, q.intent.destination, c.scanLimit), q.caller);
    } else if q.FetchOwner? {
      HarmlessSeek(q.intent, q.page[1..], q.caller);
    }
  }

  lemma HarmlessMove(c: Config, s: System, q: Process, choice: Choice)
    requires Harmless(q) && Enabled(c, s, q, choice) && s.patched == {}
    ensures Move(c, s, q, choice).patched == {} && Harmless(Move(c, s, q, choice).next)
  {
    hide WriteMove, ReadMove, AfterFailure, Harmless;
    if choice.Fail? {
      HarmlessFailure(q);
    } else if Writes(q) {
      HarmlessWrite(s, q, choice);
    } else {
      HarmlessRead(c, s, q, choice);
    }
  }

  lemma {:induction false} HarmlessSeek(intent: Intent, page: seq<Operation>, caller: Caller)
    ensures Harmless(SeekMatch(intent, page, caller))
  {
    if page != [] {
      HarmlessSeek(intent, page[1..], caller);
    }
  }

  lemma {:induction false} SafePatchesMarkNothing(c: Config, actions: seq<Action>)
    requires SafePatchesOnly(actions)
    ensures Run(c, actions).patched == {}
    ensures forall p | 0 <= p < |Run(c, actions).processes| :: Harmless(Run(c, actions).processes[p])
  {
    if actions != [] {
      var front, last := actions[..|actions| - 1], actions[|actions| - 1];
      SafePatchesMarkNothing(c, front);
      var s := Run(c, front);
      if last.Advance? && last.p < |s.processes| && Enabled(c, s, s.processes[last.p], last.choice) {
        HarmlessMove(c, s, s.processes[last.p], last.choice);
      }
    }
  }

  /** Settlement soundness, interleaved, every run: a paid row whose SUCCEEDED is not a PATCH's word
      names a successful transaction of its own network that carries its memo and pays its
      destination in its asset, with its amount under the verifier's comparison. */
  lemma PaidRowsAreBacked(c: Config, actions: seq<Action>, id: string)
    requires var s := Run(c, actions); id in s.table && s.table[id].status == SUCCEEDED && id !in s.patched
    ensures var s := Run(c, actions);
      s.table[id].txHash.Some? && Fulfils(s.ledger, s.table[id], s.table[id].txHash.value)
  {
    RunKeepsInv(c, actions);
    assert Backed(Run(c, actions), Run(c, actions).table[id]);
  }

  /** In runs whose PATCHes are all safe that is every paid row. */
  lemma SettlementSoundness(c: Config, actions: seq<Action>)
    requires SafePatchesOnly(actions)
    ensures var s := Run(c, actions);
      forall id | id in s.table && s.table[id].status == SUCCEEDED ::
        s.table[id].txHash.Some? && Fulfils(s.ledger, s.table[id], s.table[id].txHash.value)
  {
    SafePatchesMarkNothing(c, actions);
    var s := Run(c, actions);
    forall id | id in s.table && s.table[id].status == SUCCEEDED
      ensures s.table[id].txHash.Some? && Fulfils(s.ledger, s.table[id], s.table[id].txHash.value)
    {
      PaidRowsAreBacked(c, actions, id);
    }
  }

  /** In every reachable state: one row per (consumer, memo), one per hash, lumens exactly where no
      issuer is stored, every row with a 64-bit numeric memo, an accepted amount if any, and an expiry. */
  lemma ReachableTablesConsistent(c: Config, actions: seq<Action>)
    ensures Consistent(Run(c, actions).table)
    ensures var t := Run(c, actions).table;
      forall id | id in t ::
        && t[id].id == id && (t[id].asset.code == "native" <==> t[id].asset.issuer == None)
        && t[id].memo != "" && AllDigits(t[id].memo) && ParseNat(t[id].memo) <= 18446744073709551615
        && (t[id].amount.Some? ==> IsAmount(t[id].amount.value)) && t[id].expiresAt.Some?
    ensures var t := Run(c, actions).table;
      forall i, j | i in t && j in t && i != j ::
        && !(t[i].consumer == t[j].consumer && t[i].memo == t[j].memo)
        && (t[i].txHash.Some? ==> t[i].txHash != t[j].txHash)
  {
    hide Run, IsAmount, NamesLumens;
    RunKeepsInv(c, actions);
    var t := Run(c, actions).table;
    forall id | id in t ensures WellFormedRow(t[id]) {}
  }

  /** One payment settles one intent: no two rows hold the same hash, and within a consumer no ledger
      transaction could fulfil two rows of a network anyway. */
  lemma OnePaymentOneIntent(c: Config, actions: seq<Action>, i: string, j: string)
    requires var s := Run(c, actions); i in s.table && j in s.table && i != j
    ensures var s := Run(c, actions); s.table[i].txHash.Some? ==> s.table[i].txHash != s.table[j].txHash
    ensures var s := Run(c, actions);
      s.table[i].consumer == s.table[j].consumer && s.table[i].network == s.table[j].network ==>
        forall txHash :: !(Fulfils(s.ledger, s.table[i], txHash) && Fulfils(s.ledger, s.table[j], txHash))
  {
    RunKeepsInv(c, actions);
    var s := Run(c, actions);
    forall txHash | s.table[i].consumer == s.table[j].consumer && s.table[i].network == s.table[j].network
                    && Fulfils(s.ledger, s.table[i], txHash) && Fulfils(s.ledger, s.table[j], txHash)
      ensures false
    {
      OneMemoPerTransaction(s.ledger, s.table[i], s.table[j], txHash);
      assert false;
    }
  }

  /** Settling a row with a hash some other row holds changes neither table nor event log, now or in
      the process's future: the request fails, or the observer goes on to its next row. */
  lemma TakenHashSettlesNothing(c: Config, s: System, p: nat)
    requires p < |s.processes| && s.processes[p].WriteSettled?
    requires HashTaken(s.table, s.processes[p].intent.id, Some(s.processes[p].txHash))
    requires Keyed(s.table)
    ensures var q, s' := s.processes[p], Step(c, s, Advance(p, Proceed));
      s'.table == s.table && s'.events == s.events
      && s'.processes == s.processes[p := if q.caller.Api? then Done(Failed) else NextPending(q.caller.rest)]
  {
    hide VerifyMove, RequestMove, ReadMove;
  }

  // ── Leaving SUCCEEDED ──────────────────────────────────────────────────────

  ghost predicate Paid(t: Table, id: string) { id in t && t[id].status == SUCCEEDED }

  /** A write that takes a paid row back: one decided on a reading of the row from before it was
      paid, or a PATCH of the status. */
  ghost predicate TakesBack(s: System, q: Process, id: string) {
    match q
    case WriteExpired(batch) => batch != [] && batch[0].id == id && batch[0].status != SUCCEEDED
    case WriteRejected(intent, txHash, _) =>
      intent.id == id && intent.status != SUCCEEDED && !(txHash != "" && HashTaken(s.table, id, Some(txHash)))
    case DeleteRow(_, deleted) => deleted == id
    case WritePatch(_, patched, patch) =>
      patched == id && patch.status.Some? && patch.status != Some(SUCCEEDED)
      && !(patch.txHash.Some? && HashTaken(s.table, id, patch.txHash.value))
    case _ => false
  }

  /** Exactly these four writes end a paid row's SUCCEEDED in one step. */
  lemma PaidIsLostIff(c: Config, actions: seq<Action>, action: Action, id: string)
    requires Paid(Run(c, actions).table, id)
    ensures var s := Run(c, actions);
      !Paid(Step(c, s, action).table, id) <==>
        action.Advance? && action.choice == Proceed && action.p < |s.processes|
            && TakesBack(s, s.processes[action.p], id)
  {
    hide WriteMove, ReadMove, Backed, Consistent, WellFormedLedger;
    RunKeepsInv(c, actions);
    var s := Run(c, actions);
    if action.Advance? && action.p < |s.processes| && Enabled(c, s, s.processes[action.p], action.choice) {
      var q := s.processes[action.p];
      if !action.choice.Fail? && Writes(q) {
        assert Sound(s.ledger, s.born, q);
        PaidIsLostByWriteIff(s, q, action.choice, id);
      }
    }
  }

  /** The step carries out such a write for this row. */
  ghost predicate Loses(s: System, action: Action, id: string) {
    action.Advance? && action.choice == Proceed && action.p < |s.processes| && TakesBack(s, s.processes[action.p], id)
  }

  /** Over a whole run: once paid, a row stays paid throughout iff no step carries out such a write. */
  lemma {:induction false} StaysPaidIff(c: Config, actions: seq<Action>, from: nat, id: string)
    requires from <= |actions| && Paid(Run(c, actions[..from]).table, id)
    ensures (forall i | from <= i <= |actions| :: Paid(Run(c, actions[..i]).table, id)) <==>
              (forall i | from <= i < |actions| :: !Loses(Run(c, actions[..i]), actions[i], id))
    decreases |actions|
  {
    hide Run, Paid, TakesBack;
    if |actions| > from {
      var n := |actions| - 1;
      var front := actions[..n];
      forall i | 0 <= i <= n ensures front[..i] == actions[..i] {}
      StaysPaidIff(c, front, from, id);
      assert actions[..n + 1] == actions && front[..n] == front;
      RunNext(c, actions);
      if Paid(Run(c, front).table, id) {
        PaidIsLostIff(c, front, actions[n], id);
      }
    }
  }

  lemma PaidIsLostByWriteIff(s: System, q: Process, choice: Choice, id: string)
    requires Consistent(s.table) && RowsKnown(s) && Sound(s.ledger, s.born, q) && Paid(s.table, id) && Writes(q)
    requires q.InsertRow? ==> choice.Fresh? && choice.id !in s.born
    ensures !Paid(WriteMove(s, q, choice).table, id) <==> TakesBack(s, q, id)
  {
    hide Updating, AfterFailure, WellFormedRow, UniqueKeys, UniqueHashes, Sound;
    assert s.table[id].id == id && Known(s.born, s.table[id]);
    if Updates(q) {
      UpdateLosesIff(s, q, id);
      TakesBackIff(s, q, id);
    }
  }

  ghost predicate Unpays(s: System, q: Process, id: string)
    requires Updates(q) && id in s.table
  {
    var after := Rewritten(q, s.table[id]);
    Target(q) == id && after.status != SUCCEEDED && !HashTaken(s.table, id, after.txHash)
  }

  lemma UpdateLosesIff(s: System, q: Process, id: string)
    requires Consistent(s.table) && Paid(s.table, id) && Updates(q)
    ensures !Paid(Updating(s, q).table, id) <==> Unpays(s, q, id)
  {
    hide Rewritten, Target, Announcement, AfterUpdate, AfterFailure, Marked, WellFormedRow, UniqueKeys, UniqueHashes;
    if Target(q) in s.table {
      TermsKept(q, s.table[Target(q)]);
    }
  }

  lemma TakesBackIff(s: System, q: Process, id: string)
    requires Consistent(s.table) && Sound(s.ledger, s.born, q) && Paid(s.table, id) && Updates(q)
    ensures TakesBack(s, q, id) <==> Unpays(s, q, id)
  {
    hide HashTaken, Consistent;
    HashKept(s.table, id);
  }

  lemma HashKept(t: Table, id: string)
    requires Consistent(t) && id in t
    ensures !HashTaken(t, id, t[id].txHash)
  {
  }
}
