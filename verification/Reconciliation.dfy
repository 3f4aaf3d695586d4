/** What one observer cycle makes of every row: when it finds a payment, and which rows it never looks at. */
module Reconciliation {
  import opened Wrappers
  import opened Intents
  import opened Verifier
  import opened Lifecycle
  import opened Settlement
  import opened Serial
  import E = Expiry

  /** The rows of these ids, as the table holds them. */
  ghost predicate Snapshots(t: Table, ids: seq<string>, rows: seq<Intent>) {
    && Distinct(ids) && |rows| == |ids|
    && forall i | 0 <= i < |ids| :: ids[i] in t && rows[i] == t[ids[i]] && rows[i].id == ids[i]
  }

  lemma SnapshotsFront(t: Table, ids: seq<string>, rows: seq<Intent>)
    requires Snapshots(t, ids, rows) && ids != []
    ensures Snapshots(t, ids[..|ids| - 1], rows[..|rows| - 1])
    ensures ids[|ids| - 1] !in ids[..|ids| - 1]
  {
  }

  /** A round touches its own row only. */
  lemma RoundIsLocal(c: Config, ledger: Ledger, st: Store, row: Intent, id: string)
    requires Keyed(st.table) && id in st.table && id != row.id
    ensures var after := Reconcile(c, ledger, st, row).table; id in after && after[id] == st.table[id]
  {
    hide Observed, HashTaken;
  }

  lemma {:induction false} OthersUntouched(c: Config, ledger: Ledger, st: Store, ids: seq<string>, rows: seq<Intent>,
                                           down: set<string>, id: string)
    requires Faithful(st) && Snapshots(st.table, ids, rows) && id in st.table && id !in ids
    ensures var after := ReconcileAll(c, ledger, st, rows, down).table; id in after && after[id] == st.table[id]
  {
    hide Reconcile, Replay;
    if rows != [] {
      var n := |rows| - 1;
      SnapshotsFront(st.table, ids, rows);
      OthersUntouched(c, ledger, st, ids[..n], rows[..n], down, id);
      ReconcileAllFaithful(c, ledger, st, rows[..n], down);
      assert rows[n].id == ids[n] && ids[n] in ids;
      RoundIsLocal(c, ledger, ReconcileAll(c, ledger, st, rows[..n], down), rows[n], id);
    }
  }

  /** The observer has found a payment with a hash. */
  predicate Found(v: Verification) { v.Valid? && v.txHash != "" }

  /** A row paid by this payment: the payer is recorded where no source was known, and nothing else moves. */
  predicate AsPaid(before: Intent, after: Intent, txHash: string, payer: string) {
    after == before.(
      status := SUCCEEDED,
      txHash := Some(txHash),
      source := if payer != "" && (before.source == None || before.source == Some("")) then Some(payer)
                else before.source)
  }

  /** A row after its round: paid with what was found, or as it was because nothing was found or another row
      holds the hash. */
  ghost predicate Outcome(t: Table, before: Intent, v: Verification) {
    && before.id in t
    && if Found(v) && !HashTaken(t, before.id, Some(v.txHash)) then AsPaid(before, t[before.id], v.txHash, v.payer)
       else t[before.id] == before
  }

  lemma OwnRound(c: Config, ledger: Ledger, st: Store, row: Intent)
    requires Faithful(st) && row.id in st.table && st.table[row.id] == row
    ensures Outcome(Reconcile(c, ledger, st, row).table, row, Observed(c, ledger, row))
  {
    var v := Observed(c, ledger, row);
    hide Observed, Replay, WellFormedRow, UniqueKeys;
    if Found(v) {
      SettleIsJournaled(st, row.consumer, row.id, v.txHash, v.payer);
      var r := Settle(st, row.consumer, row.id, v.txHash, v.payer);
      if r.answer != Failed {
        SettleKeepsKnownSource(st, row.consumer, row.id, v.txHash, v.payer);
        HashKept(r.store.table, row.id);
      }
    }
  }

  /** Whoever holds a hash keeps it through a later round: a reported hash is the one looked up. */
  lemma HolderKeeps(c: Config, ledger: Ledger, st: Store, row: Intent, id: string, txHash: string)
    requires Faithful(st) && row.id in st.table && st.table[row.id] == row && txHash != ""
    requires HashTaken(st.table, id, Some(txHash))
    ensures HashTaken(Reconcile(c, ledger, st, row).table, id, Some(txHash))
  {
    hide VerifyByHash, Scan, Replay, WellFormedRow, UniqueKeys;
    var j :| j in st.table && j != id && st.table[j].txHash == Some(txHash);
    var after := Reconcile(c, ledger, st, row).table;
    LookupNamesHash(ledger, c.pageSize, row, txHash);
    if j != row.id {
      RoundIsLocal(c, ledger, st, row, j);
    }
    assert j in after && after[j].txHash == Some(txHash);
  }

  lemma LookupNamesHash(ledger: Ledger, pageSize: nat, intent: Intent, txHash: string)
    ensures var v := VerifyByHash(ledger, pageSize, intent, txHash); v.Valid? ==> v.txHash == txHash
  {
  }

  /** A later round of another row leaves the outcome as it is. */
  lemma LaterRound(c: Config, ledger: Ledger, st: Store, before: Intent, v: Verification, row: Intent)
    requires Faithful(st) && row.id in st.table && st.table[row.id] == row && row.id != before.id
    requires Outcome(st.table, before, v)
    ensures Outcome(Reconcile(c, ledger, st, row).table, before, v)
  {
    hide Observed, Reconcile, Replay;
    var after := Reconcile(c, ledger, st, row);
    RoundIsLocal(c, ledger, st, row, before.id);
    ReconcileIsJournaled(c, ledger, st, row);
    if Found(v) {
      if HashTaken(st.table, before.id, Some(v.txHash)) {
        HolderKeeps(c, ledger, st, row, before.id, v.txHash);
      } else {
        HashKept(after.table, before.id);
      }
    }
  }

  lemma {:induction false} RoundsDecide(c: Config, ledger: Ledger, st: Store, ids: seq<string>, rows: seq<Intent>,
                                        down: set<string>, i: nat)
    requires Faithful(st) && Snapshots(st.table, ids, rows) && i < |rows| && ids[i] !in down
    ensures Outcome(ReconcileAll(c, ledger, st, rows, down).table, rows[i], Observed(c, ledger, rows[i]))
  {
    hide Observed, Reconcile, Replay, Outcome;
    var n := |rows| - 1;
    var done := ReconcileAll(c, ledger, st, rows[..n], down);
    SnapshotsFront(st.table, ids, rows);
    ReconcileAllFaithful(c, ledger, st, rows[..n], down);
    OthersUntouched(c, ledger, st, ids[..n], rows[..n], down, ids[n]);
    if i == n {
      OwnRound(c, ledger, done, rows[n]);
    } else {
      RoundsDecide(c, ledger, st, ids[..n], rows[..n], down, i);
      LaterRound(c, ledger, done, rows[i], Observed(c, ledger, rows[i]), rows[n]);
    }
  }

  lemma {:induction false} DownIsUntouched(c: Config, ledger: Ledger, st: Store, ids: seq<string>, rows: seq<Intent>,
                                           down: set<string>, id: string)
    requires Faithful(st) && Snapshots(st.table, ids, rows) && id in st.table && id in down
    ensures var after := ReconcileAll(c, ledger, st, rows, down).table; id in after && after[id] == st.table[id]
  {
    hide Reconcile, Replay;
    if rows != [] {
      var n := |rows| - 1;
      SnapshotsFront(st.table, ids, rows);
      DownIsUntouched(c, ledger, st, ids[..n], rows[..n], down, id);
      ReconcileAllFaithful(c, ledger, st, rows[..n], down);
      if ids[n] !in down {
        RoundIsLocal(c, ledger, ReconcileAll(c, ledger, st, rows[..n], down), rows[n], id);
      }
    }
  }

  // ── The whole cycle ────────────────────────────────────────────────────────

  lemma BatchSnapshots(t: Table, eligible: set<string>, take: nat, ids: seq<string>)
    requires Keyed(t) && AnyBatch(t, eligible, take, ids)
    ensures Snapshots(t, ids, Rows(t, ids))
  {
    forall i | 0 <= i < |ids| ensures ids[i] in t {
      assert ids[i] in ids;
    }
  }

  lemma FirstHalf(c: Config, st: Store, cycle: Cycle)
    requires Faithful(st) && LegalCycle(c, st, cycle)
    ensures Faithful(Expired(st, cycle))
    ensures ExactlyLapsed(st.table, Expired(st, cycle).table, cycle.overdue, cycle.failing)
  {
    hide Replay, OverdueIds, OldestBatch;
    BatchSnapshots(st.table, OverdueIds(st.table, cycle.now), c.batchSize, cycle.overdue);
    ExpireAllExact(st, cycle.overdue, Rows(st.table, cycle.overdue), cycle.failing);
    ExpireAllFaithful(st, Rows(st.table, cycle.overdue), cycle.failing);
  }

  /** A cycle, row by row: a row it marks expired ends up expired whatever the ledger holds; a pending row it
      selects and whose calls go through is settled iff a payment is found whose hash no other row has in the
      end; every other row stays as it is. */
  lemma TickDecides(c: Config, ledger: Ledger, st: Store, cycle: Cycle, id: string)
    requires Faithful(st) && LegalCycle(c, st, cycle) && id in st.table
    ensures var before, t := st.table[id], Tick(c, ledger, st, cycle).table;
      if id in cycle.overdue && id !in cycle.failing then
        id in t && t[id] == before.(status := EXPIRED)
      else if id in cycle.pending && id !in cycle.down then
        before.status == PENDING && Outcome(t, before, Observed(c, ledger, before))
      else
        id in t && t[id] == before
  {
    hide Replay, OverdueIds, ReconcileAll, ExpireAll, Observed, Outcome, Consistent;
    FirstHalf(c, st, cycle);
    var mid := Expired(st, cycle);
    var rows := Rows(mid.table, cycle.pending);
    KeyedStore(mid);
    BatchSnapshots(mid.table, PendingIds(mid.table), c.batchSize, cycle.pending);
    if id !in cycle.pending {
      OthersUntouched(c, ledger, mid, cycle.pending, rows, cycle.down, id);
    } else {
      assert id in PendingIds(mid.table);
      var i :| 0 <= i < |cycle.pending| && cycle.pending[i] == id;
      if id in cycle.down {
        DownIsUntouched(c, ledger, mid, cycle.pending, rows, cycle.down, id);
      } else {
        RoundsDecide(c, ledger, mid, cycle.pending, rows, cycle.down, i);
      }
    }
  }

  lemma KeyedStore(st: Store)
    requires Faithful(st)
    ensures Keyed(st.table)
  {
  }

  // ── The cycle on the columns of the rows ───────────────────────────────────

  lemma WholeBatch(t: Table, eligible: set<string>, take: nat, ids: seq<string>, id: string)
    requires AnyBatch(t, eligible, take, ids) && |eligible| <= take
    ensures id in ids <==> id in eligible
  {
    E.DistinctCount(ids, eligible);
    assert eligible - (set i | i in ids) == {};
  }

  lemma FitsBatch(t: Table, eligible: set<string>, take: nat)
    requires |t| <= take && eligible <= t.Keys
    ensures |eligible| <= take
  {
    E.SubsetCount(eligible, t.Keys);
  }

  /** A cycle whose batches hold all rows, on the columns of a row before it: a PENDING or SUBMITTED row past its
      lifetime whose call goes through becomes EXPIRED; any other PENDING row, unless its calls fail, gets the
      outcome of its round; every other row stays as it is. */
  lemma CycleInFull(c: Config, ledger: Ledger, st: Store, cycle: Cycle, id: string)
    requires Faithful(st) && LegalCycle(c, st, cycle) && |st.table| <= c.batchSize && id in st.table
    ensures var row, t := st.table[id], Tick(c, ledger, st, cycle).table;
      if (row.status == PENDING || row.status == SUBMITTED)
         && row.expiresAt.Some? && row.expiresAt.value < cycle.now && id !in cycle.failing
      then id in t && t[id] == row.(status := EXPIRED)
      else if row.status == PENDING && id !in cycle.down then Outcome(t, row, Observed(c, ledger, row))
      else id in t && t[id] == row
  {
    hide Replay, Tick, Observed, Outcome, Consistent;
    TickDecides(c, ledger, st, cycle, id);
    FirstHalf(c, st, cycle);
    var mid := Expired(st, cycle).table;
    FitsBatch(st.table, OverdueIds(st.table, cycle.now), c.batchSize);
    WholeBatch(st.table, OverdueIds(st.table, cycle.now), c.batchSize, cycle.overdue, id);
    assert |mid| == |mid.Keys| == |st.table.Keys| == |st.table|;
    FitsBatch(mid, PendingIds(mid), c.batchSize);
    WholeBatch(mid, PendingIds(mid), c.batchSize, cycle.pending, id);
  }

  /** The batches themselves, of any size: the first holds rows past their lifetime and leaves none out unless
      it is full, the second the oldest PENDING rows that were not marked, in the order of their age. */
  lemma BatchesInFull(c: Config, st: Store, cycle: Cycle, id: string)
    requires Faithful(st) && LegalCycle(c, st, cycle) && id in st.table
    ensures var row := st.table[id];
      var lapsed := (row.status == PENDING || row.status == SUBMITTED)
                    && row.expiresAt.Some? && row.expiresAt.value < cycle.now;
      var pending := row.status == PENDING && !(id in cycle.overdue && id !in cycle.failing);
      && |cycle.overdue| <= c.batchSize && |cycle.pending| <= c.batchSize
      && (id in cycle.overdue ==> lapsed) && (lapsed && |cycle.overdue| < c.batchSize ==> id in cycle.overdue)
      && (id in cycle.pending ==> pending) && (pending && |cycle.pending| < c.batchSize ==> id in cycle.pending)
      && (pending && id !in cycle.pending ==>
            forall other | other in cycle.pending ::
              other in st.table && st.table[other].createdAt <= row.createdAt)
    ensures forall i, j | 0 <= i < j < |cycle.pending| ::
      && cycle.pending[i] in st.table && cycle.pending[j] in st.table
      && st.table[cycle.pending[i]].createdAt <= st.table[cycle.pending[j]].createdAt
  {
    hide Replay, Consistent, ExpireAll;
    FirstHalf(c, st, cycle);
    var mid := Expired(st, cycle).table;
    if |cycle.overdue| < c.batchSize {
      WholeBatch(st.table, OverdueIds(st.table, cycle.now), c.batchSize, cycle.overdue, id);
    }
    if |cycle.pending| < c.batchSize {
      WholeBatch(mid, PendingIds(mid), c.batchSize, cycle.pending, id);
    }
    forall k | 0 <= k < |cycle.pending|
      ensures cycle.pending[k] in st.table
          && st.table[cycle.pending[k]].createdAt == mid[cycle.pending[k]].createdAt
    {
      assert cycle.pending[k] in cycle.pending;
    }
  }

  // ── When a payment is found ────────────────────────────────────────────────

  /** Transactions have hashes. */
  ghost predicate Hashed(ledger: Ledger) { forall tx | tx in ledger :: tx.hash != "" }

  /** A row without a reported hash, whose destination has no more records than a scan reads, is found paid iff
      some transaction fulfils it. */
  lemma FoundIff(c: Config, ledger: Ledger, row: Intent)
    requires WellFormedLedger(ledger) && Hashed(ledger) && (row.txHash.None? || row.txHash.value == "")
    requires |AccountRecords(ledger, row.network, row.destination)| <= c.scanLimit
    ensures Found(Observed(c, ledger, row)) <==> exists txHash :: Fulfils(ledger, row, txHash)
  {
    hide Scan, RecentPage, PaymentMatches, MemoMatches;
    var page := RecentPage(ledger, row.network, row.destination, c.scanLimit);
    UncroppedScanDecides(ledger, row, c.scanLimit);
    ScanSound(ledger, row, page);
  }

  /** No other row has the hash that was found. */
  ghost predicate Unclaimed(t: Table, id: string, v: Verification) { v.Valid? ==> !HashTaken(t, id, Some(v.txHash)) }

  /** Such a row, selected by a cycle whose calls go through and not marked expired by it, is paid in the end
      iff some transaction fulfils it and no other row has the hash of the one that was found. */
  lemma PaidAfterTickIff(c: Config, ledger: Ledger, st: Store, cycle: Cycle, id: string)
    requires Faithful(st) && LegalCycle(c, st, cycle) && id in st.table && id in cycle.pending && id !in cycle.down
    requires WellFormedLedger(ledger) && Hashed(ledger)
    requires var row := st.table[id];
      && (row.txHash.None? || row.txHash.value == "")
      && |AccountRecords(ledger, row.network, row.destination)| <= c.scanLimit
    ensures var row, t := st.table[id], Tick(c, ledger, st, cycle).table;
      Paid(t, id) <==>
        && (exists txHash :: Fulfils(ledger, row, txHash))
        && Unclaimed(t, id, Observed(c, ledger, row))
  {
    hide Replay, OverdueIds, PendingIds, Tick, AccountRecords, Fulfils, Observed, HashTaken, Consistent;
    TickDecides(c, ledger, st, cycle, id);
    KeyedStore(st);
    SelectedIsNotMarked(c, st, cycle, id);
    FoundIff(c, ledger, st.table[id]);
  }

  lemma SelectedIsNotMarked(c: Config, st: Store, cycle: Cycle, id: string)
    requires Faithful(st) && LegalCycle(c, st, cycle) && id in cycle.pending
    ensures id in st.table && !(id in cycle.overdue && id !in cycle.failing) && st.table[id].status == PENDING
  {
    hide Replay, OverdueIds, ExpireAll, Consistent;
    FirstHalf(c, st, cycle);
    assert id in PendingIds(Expired(st, cycle).table);
  }

  /** Paid in time and seen too late: a row a cycle marks expired is EXPIRED after it, although a transaction on
      the ledger fulfils it. */
  lemma SeenTooLate(c: Config, ledger: Ledger, st: Store, cycle: Cycle, id: string, txHash: string)
    requires Faithful(st) && LegalCycle(c, st, cycle) && id in cycle.overdue && id !in cycle.failing && id in st.table
    requires Fulfils(ledger, st.table[id], txHash)
    ensures var t := Tick(c, ledger, st, cycle).table;
      id in t && t[id].status == EXPIRED && Fulfils(ledger, t[id], txHash)
  {
    hide Replay, LegalCycle, Tick, Fulfils, Observed, Outcome, Consistent;
    TickDecides(c, ledger, st, cycle, id);
    var row := st.table[id];
    FulfilsStable(ledger, ledger, row, row.(status := EXPIRED), txHash);
  }

  /** Only PENDING rows are ever settled by a cycle: one reported as submitted, cancelled or failed is not
      looked at, and neither is one that expired before. */
  lemma OnlyPendingIsSettled(c: Config, ledger: Ledger, st: Store, cycle: Cycle, id: string)
    requires Faithful(st) && LegalCycle(c, st, cycle) && id in st.table && st.table[id].status != PENDING
    ensures var t := Tick(c, ledger, st, cycle).table;
      id in t && (t[id] == st.table[id] || t[id] == st.table[id].(status := EXPIRED))
  {
    hide Replay, LegalCycle, Tick, Observed, Outcome, Consistent;
    TickDecides(c, ledger, st, cycle, id);
  }
}
