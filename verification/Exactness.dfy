/** What settlement and the dashboard mean in stroops, for every reachable state. */
module Exactness {
  import opened Wrappers
  import opened Decimals
  import opened Assets
  import opened Memos
  import opened Money
  import opened Intents
  import opened Verifier
  import opened Payments
  import opened Lifecycle
  import opened Settlement
  import opened Analytics
  import P = PaymentIntents
  import R = Reconciliation
  import S = Serial

  /** Interleaved, every run: a row marked paid by the service has on the ledger a payment under its memo, to
      its destination, in its asset, and to the stroop of its amount up to the bound. */
  lemma SettledInFull(c: Config, actions: seq<Action>, id: string)
    requires var s := Run(c, actions); id in s.table && s.table[id].status == SUCCEEDED && id !in s.patched
    ensures var s := Run(c, actions);
      exists tx ::
          tx in s.ledger && s.table[id].txHash.Some? && PaysUnderMemo(tx, s.table[id], s.table[id].txHash.value)
  {
    hide Run, Fulfils, PaysUnderMemo, WellFormedRow, UniqueKeys, UniqueHashes, Keyed;
    var s := Run(c, actions);
    ReachableTablesConsistent(c, actions);
    assert WellFormedRow(s.table[id]);
    PaidRowsAreBacked(c, actions, id);
    var tx := FulfilledInFull(s.ledger, s.table[id], s.table[id].txHash.value);
  }

  // ── Validation and the observer, decided on the columns ────────────────────

  /** The ledger holds a transaction that pays the row under its memo through its i-th record, the first of those
      on a page that does. */
  ghost predicate PaidOnPage(c: Config, ledger: Ledger, row: Intent, txHash: string, tx: Transaction, i: nat) {
    tx in ledger && UnderMemo(tx, row, txHash) && i < c.pageSize && FirstPayment(tx, row, i)
  }

  ghost predicate FailedOnChain(ledger: Ledger, row: Intent, txHash: string) {
    exists tx :: tx in ledger && tx.network == row.network && tx.hash == txHash && !tx.successful
  }

  ghost predicate HeldByAnother(t: Table, id: string, txHash: string) {
    exists other :: other in t && other != id && t[other].txHash == Some(txHash)
  }

  lemma LookupDecides(c: Config, ledger: Ledger, row: Intent, txHash: string)
    requires WellFormedLedger(ledger) && WellFormedRow(row) && Comparable(row)
    ensures var v := VerifyByHash(ledger, c.pageSize, row, txHash);
      && (v.Valid? <==> exists tx, i: nat :: PaidOnPage(c, ledger, row, txHash, tx, i))
      && (v == Invalid(FAILED_ON_CHAIN) <==> FailedOnChain(ledger, row, txHash))
      && forall tx, i: nat | PaidOnPage(c, ledger, row, txHash, tx, i) :: v == Valid(txHash, tx.operations[i].from)
  {
    hide VerifyByHash, Pays, Comparable, WellFormedRow;
    LookupInFull(ledger, c.pageSize, row, txHash);
    var v := VerifyByHash(ledger, c.pageSize, row, txHash);
    if v != Invalid(NOT_FOUND) {
      var tx :| tx in ledger && tx.network == row.network && tx.hash == txHash;
      assert VerdictOn(tx, c.pageSize, row, txHash, v);
      LookupFinds(ledger, tx);
      forall other | other in ledger && other.network == row.network && other.hash == txHash ensures other == tx {
        LookupFinds(ledger, other);
      }
      if v.Valid? {
        var i: nat :| i < c.pageSize && FirstPayment(tx, row, i) && v == Valid(txHash, tx.operations[i].from);
        assert PaidOnPage(c, ledger, row, txHash, tx, i);
      }
    }
  }

  /** validate on an unpaid row, decided on the columns of the row and the ledger: it is paid iff the ledger holds
      such a transaction and no other row its hash, and then answers so and records the payer where none was
      known; it is failed iff the transaction failed on-chain and no other row holds the hash; the request fails
      iff another row holds a hash that was to be written; otherwise the answer is the status as it is. */
  lemma ValidateInFull(c: Config, ledger: Ledger, st: S.Store, consumer: string, id: string, txHash: string)
    requires S.Faithful(st) && WellFormedLedger(ledger) && txHash != ""
    requires id in st.table && st.table[id].consumer == consumer && st.table[id].status != SUCCEEDED
    requires Comparable(st.table[id])
    ensures var r, row := S.Validate(c, ledger, st, consumer, id, txHash), st.table[id];
      if exists tx, i: nat :: PaidOnPage(c, ledger, row, txHash, tx, i) then
        if HeldByAnother(st.table, id, txHash) then r == S.Result(st, Failed)
        else
          && r.answer == Outcome(true, SUCCEEDED) && id in r.store.table
          && forall tx, i: nat | PaidOnPage(c, ledger, row, txHash, tx, i) ::
               R.AsPaid(row, r.store.table[id], txHash, tx.operations[i].from)
      else if FailedOnChain(ledger, row, txHash) then
        if HeldByAnother(st.table, id, txHash) then r == S.Result(st, Failed)
        else
          && r.answer == Outcome(false, FAILED) && id in r.store.table
          && r.store.table[id] == row.(status := FAILED, txHash := Some(txHash))
      else r == S.Result(st, Outcome(false, row.status))
  {
    hide VerifyByHash, PaidOnPage, FailedOnChain, Replay, UniqueKeys, UniqueHashes, Comparable, WellFormedRow;
    var row := st.table[id];
    LookupDecides(c, ledger, row, txHash);
    var v := VerifyByHash(ledger, c.pageSize, row, txHash);
    if v.Valid? {
      S.SettleIsJournaled(st, consumer, id, txHash, v.payer);
      if !HeldByAnother(st.table, id, txHash) {
        S.SettleKeepsKnownSource(st, consumer, id, txHash, v.payer);
      }
    } else if v.reason == FAILED_ON_CHAIN {
      S.RejectIsJournaled(st, consumer, id, txHash);
    }
  }

  /** What the observer finds for a row: by its reported hash, or by scanning where none is reported. */
  ghost predicate ObservedPayment(c: Config, ledger: Ledger, row: Intent, txHash: string, payer: string) {
    if row.txHash.Some? && row.txHash.value != "" then
      txHash == row.txHash.value
      && exists tx, i: nat :: PaidOnPage(c, ledger, row, txHash, tx, i) && payer == tx.operations[i].from
    else
      exists p :: LatestPaid(ledger, row, p) && Ahead(ledger, row, p) < c.scanLimit
        && txHash == ledger[p.tx].hash && payer == ledger[p.tx].operations[p.op].from
  }

  lemma ObservedIff(c: Config, ledger: Ledger, row: Intent, txHash: string, payer: string)
    requires WellFormedLedger(ledger) && WellFormedRow(row) && Comparable(row)
    ensures S.Observed(c, ledger, row) == Valid(txHash, payer) <==> ObservedPayment(c, ledger, row, txHash, payer)
  {
    hide VerifyByHash, Scan, RecentPage, PaidOnPage, PaidAt, Ahead, WellFormedRow, Comparable;
    if row.txHash.Some? && row.txHash.value != "" {
      LookupDecides(c, ledger, row, row.txHash.value);
    } else {
      ScanInFull(ledger, row, c.scanLimit);
      if p :| LatestPaid(ledger, row, p) {
        assert PaidAt(ledger, row, p);
      }
    }
  }

  /** One cycle, on a PENDING row it selects and whose calls go through: the row is paid iff the observer finds
      such a payment and no other row has its hash in the end, and then holds that hash and its payer. */
  lemma CycleSettlesIff(c: Config, ledger: Ledger, st: S.Store, cycle: S.Cycle, id: string)
    requires S.Faithful(st) && S.LegalCycle(c, st, cycle) && WellFormedLedger(ledger) && R.Hashed(ledger)
    requires id in cycle.pending && id !in cycle.down && id in st.table && Comparable(st.table[id])
    ensures var row, t := st.table[id], S.Tick(c, ledger, st, cycle).table;
      && id in t
      && (t[id].status == SUCCEEDED <==> exists txHash, payer ::
            ObservedPayment(c, ledger, row, txHash, payer) && !HeldByAnother(t, id, txHash))
      && (t[id].status == SUCCEEDED ==> exists txHash, payer ::
            ObservedPayment(c, ledger, row, txHash, payer) && R.AsPaid(row, t[id], txHash, payer))
      && (t[id].status != SUCCEEDED ==> t[id] == row)
  {
    hide Replay, OverdueIds, PendingIds, S.Tick, S.Observed, ObservedPayment, UniqueKeys, UniqueHashes, Comparable,
         WellFormedRow, S.LegalCycle;
    R.TickDecides(c, ledger, st, cycle, id);
    R.SelectedIsNotMarked(c, st, cycle, id);
    var row, v := st.table[id], S.Observed(c, ledger, st.table[id]);
    forall txHash, payer ensures v == Valid(txHash, payer) <==> ObservedPayment(c, ledger, row, txHash, payer) {
      ObservedIff(c, ledger, row, txHash, payer);
    }
    ObservedHashed(c, ledger, row);
  }

  lemma ObservedHashed(c: Config, ledger: Ledger, row: Intent)
    requires WellFormedLedger(ledger) && R.Hashed(ledger)
    ensures var v := S.Observed(c, ledger, row); v.Valid? ==> v.txHash != ""
  {
    S.ObservedFulfils(c, ledger, row);
  }

  // ── Memos ──────────────────────────────────────────────────────────────────

  /** The transaction built from an accepted memo carries the row's memo, as the verifier reads it, iff the memo
      has no superfluous leading zero. */
  lemma OwnMemoMatchesIff(row: Intent)
    requires MemoAccepted(row.memo)
    ensures MemoMatches(row, Some("id"), Some(OnChain(row.memo))) <==> NoLeadingZero(row.memo)
  {
    SuppliedMemoMatchesIff(row.memo);
  }

  /** A numeric memo is stored on-chain as a number, and shown as its canonical numeral. */
  ghost predicate NumericMemos(ledger: Ledger) {
    forall tx | tx in ledger && tx.memoType == Some("id") :: exists n: nat :: tx.memo == Some(ToDecimal(n))
  }

  lemma FulfilledMemoIsCanonical(ledger: Ledger, row: Intent, txHash: string)
    requires NumericMemos(ledger) && MemoAccepted(row.memo) && Fulfils(ledger, row, txHash)
    ensures NoLeadingZero(row.memo)
  {
    hide PaymentMatches;
    var tx :| tx in ledger && Carries(tx, row, txHash);
    var n: nat :| tx.memo == Some(ToDecimal(n));
    ToDecimalRoundTrip(n);
  }

  /** Interleaved, every run: a row whose memo has a superfluous leading zero is never marked paid by the
      service. */
  lemma LeadingZeroIsNeverPaid(c: Config, actions: seq<Action>, id: string)
    requires var s := Run(c, actions);
      NumericMemos(s.ledger) && id in s.table && !NoLeadingZero(s.table[id].memo) && id !in s.patched
    ensures Run(c, actions).table[id].status != SUCCEEDED
  {
    hide Run, Fulfils, NumericMemos, UniqueKeys, UniqueHashes, Keyed, NoLeadingZero;
    var s := Run(c, actions);
    ReachableTablesConsistent(c, actions);
    assert WellFormedRow(s.table[id]);
    if s.table[id].status == SUCCEEDED {
      PaidRowsAreBacked(c, actions, id);
      FulfilledMemoIsCanonical(s.ledger, s.table[id], s.table[id].txHash.value);
    }
  }

  /** In every reachable state the label under which the dashboard totals a row tells stored codes apart, and
      "XLM" collects exactly the rows without an issuer. */
  lemma LabelsNeverMix(c: Config, actions: seq<Action>, i: string, j: string)
    requires i in Run(c, actions).table && j in Run(c, actions).table
    ensures var t := Run(c, actions).table;
      && (AssetLabel(t[i].asset.code) == AssetLabel(t[j].asset.code) <==> t[i].asset.code == t[j].asset.code)
      && (AssetLabel(t[i].asset.code) == "XLM" <==> t[i].asset.issuer == None)
  {
    hide Run, UniqueKeys, UniqueHashes, Keyed, NamesLumens;
    var t := Run(c, actions).table;
    ReachableTablesConsistent(c, actions);
    assert WellFormedRow(t[i]) && WellFormedRow(t[j]);
    AssetLabelInjective(t[i].asset, t[j].asset);
    OnlyLumensAreXlm(t[i].asset);
  }

  lemma OnlyLumensAreXlm(a: Asset)
    requires Stored(a)
    ensures AssetLabel(a.code) == "XLM" <==> a.issuer == None
  {
    assert Lower("XLM") == "xlm";
  }

  /** The dashboard looks at the network its caller's intents are created on, except where no key kind is
      forwarded and the configured default is the public network. */
  lemma DashboardNetworkIff(environment: Option<Environment>, fallback: Network)
    ensures DashboardNetwork(environment) == P.ResolveNetwork(environment, fallback)
        <==> !(environment == None && fallback == PUBLIC)
    ensures DashboardNetwork(environment) == PUBLIC <==> environment == Some(PROD)
  {
  }

  /** The rows a dashboard query returns from a reachable state: their amounts can all be totalled. */
  lemma ReachableRowsPayable(c: Config, actions: seq<Action>, rows: seq<Intent>)
    requires forall row | row in rows :: row.id in Run(c, actions).table && Run(c, actions).table[row.id] == row
    ensures Payable(rows)
  {
    hide Run, IsAmount, UniqueKeys, UniqueHashes, Keyed;
    ReachableTablesConsistent(c, actions);
    forall row | row in rows ensures Accepted(row.amount) {
      assert WellFormedRow(Run(c, actions).table[row.id]);
    }
  }

  /** Interleaved, every run: under the bound both endpoints print, for every asset, exactly the decimal total
      of the settled rows, in whatever orders their queries return them. */
  lemma DashboardsPrintTheTotal(c: Config, actions: seq<Action>, xs: seq<Intent>, ys: seq<Intent>, asset: string)
    requires forall row | row in xs :: row.id in Run(c, actions).table && Run(c, actions).table[row.id] == row
    requires multiset(xs) == multiset(ys) && Weight(AmountsOf(xs, SettledIn(asset))) < TWO_51
    ensures PrintsTotal(ToMoney(Sum(AmountsOf(xs, SettledIn(asset)))), AmountsOf(xs, SettledIn(asset)))
    ensures ToMoney(Sum(AmountsOf(ys, SettledIn(asset)))) == ToMoney(Sum(AmountsOf(xs, SettledIn(asset))))
  {
    hide Run, Sum, ToMoney, AmountsOf, PrintsTotal, Weight;
    ReachableRowsPayable(c, actions, xs);
    VolumePrintsExactly(xs, SettledIn(asset));
    EndpointsAgree(xs, ys, asset);
  }
}
