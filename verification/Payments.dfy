/** What the verifier accepts, column by column and in stroops: which payments fulfil a stored intent, which
    verdict a lookup gives, and which payment a scan finds. */
module Payments {
  import opened Wrappers
  import opened Decimals
  import opened Assets
  import opened Memos
  import opened Money
  import opened Intents
  import opened Verifier

  /** A payment of the row's asset to its destination; of exactly its amount, where one of at most
      536870912.0000002 units is fixed. */
  ghost predicate Pays(op: Operation, row: Intent) {
    && op.kind == "payment" && op.to == row.destination
    && (if row.asset.issuer == None then op.assetType == "native"
        else op.assetCode == Some(row.asset.code) && op.assetIssuer == row.asset.issuer)
    && (row.amount.Some? && IsAmount(row.amount.value) && Stroops(row.amount.value) <= 5368709120000002 ==>
          IsAmount(op.amount) && Stroops(op.amount) == Stroops(row.amount.value))
  }

  /** The row fixes no amount, or one of at most 536870912.0000002 units. */
  predicate Comparable(row: Intent) {
    row.amount.Some? ==> IsAmount(row.amount.value) && Stroops(row.amount.value) <= 5368709120000002
  }

  /** A successful transaction of the row's network under the row's numeric memo. */
  predicate UnderMemo(tx: Transaction, row: Intent, txHash: string) {
    && tx.network == row.network && tx.hash == txHash && tx.successful
    && tx.memoType == Some("id") && tx.memo == Some(row.memo)
  }

  /** Such a transaction with such a payment. */
  ghost predicate PaysUnderMemo(tx: Transaction, row: Intent, txHash: string) {
    UnderMemo(tx, row, txHash) && exists op :: op in tx.operations && Pays(op, row)
  }

  lemma MatchingPays(op: Operation, row: Intent)
    requires WellFormedRow(row) && PaymentMatches(row, op)
    ensures Pays(op, row)
  {
    hide NumberOf, StrictlyEqual, IsAmount, Stroops;
    if row.amount.Some? && Stroops(row.amount.value) <= TWO_29_UNITS + 2 {
      MatchingAmountIsExact(row.amount.value, op.amount);
    }
  }

  lemma PayingMatches(op: Operation, row: Intent)
    requires WellFormedRow(row) && Comparable(row) && Pays(op, row)
    ensures PaymentMatches(row, op)
  {
    hide NumberOf, StrictlyEqual, IsAmount, Stroops;
    if row.amount.Some? {
      NumbersEqualIff(op.amount, row.amount.value);
    }
  }

  /** A payment matches a stored row iff its columns say so and its amount is the row's to the stroop, however
      the two strings are written. */
  lemma MatchesIffPays(op: Operation, row: Intent)
    requires WellFormedRow(row) && Comparable(row)
    ensures PaymentMatches(row, op) <==> Pays(op, row)
  {
    hide PaymentMatches, Pays, Comparable, WellFormedRow;
    if PaymentMatches(row, op) {
      MatchingPays(op, row);
    }
    if Pays(op, row) {
      PayingMatches(op, row);
    }
  }

  lemma MemoMatchesIff(tx: Transaction, row: Intent, txHash: string)
    requires WellFormedRow(row) && tx.network == row.network && tx.hash == txHash && tx.successful
    ensures MemoMatches(row, tx.memoType, tx.memo) <==> UnderMemo(tx, row, txHash)
  {
  }

  lemma FulfilledInFull(ledger: Ledger, row: Intent, txHash: string) returns (tx: Transaction)
    requires WellFormedRow(row) && Fulfils(ledger, row, txHash)
    ensures tx in ledger && PaysUnderMemo(tx, row, txHash)
  {
    hide PaymentMatches, Pays;
    tx :| tx in ledger && Carries(tx, row, txHash);
    var op :| op in tx.operations && PaymentMatches(row, op);
    MatchingPays(op, row);
  }

  // ── The lookup ─────────────────────────────────────────────────────────────

  /** The first record of a transaction that pays the row is its i-th. */
  ghost predicate FirstPayment(tx: Transaction, row: Intent, i: nat) {
    i < |tx.operations| && Pays(tx.operations[i], row) && forall j | 0 <= j < i :: !Pays(tx.operations[j], row)
  }

  /** The verdict on a looked-up transaction, with `pageSize` records fetched. */
  ghost predicate VerdictOn(tx: Transaction, pageSize: nat, row: Intent, txHash: string, v: Verification) {
    if !tx.successful then v == Invalid(FAILED_ON_CHAIN)
    else if !UnderMemo(tx, row, txHash) then v == Invalid(MEMO_MISMATCH)
    else if exists i: nat :: i < pageSize && FirstPayment(tx, row, i) then
      exists i: nat :: i < pageSize && FirstPayment(tx, row, i) && v == Valid(txHash, tx.operations[i].from)
    else v == Invalid(NO_PAYMENT)
  }

  lemma {:induction false} FirstMatchIsFirst(row: Intent, ops: seq<Operation>) returns (i: nat)
    ensures i <= |ops| && forall j | 0 <= j < i :: !PaymentMatches(row, ops[j])
    ensures FirstMatch(row, ops) == if i == |ops| then None else Some(ops[i])
    ensures i < |ops| ==> PaymentMatches(row, ops[i])
  {
    hide PaymentMatches;
    i := 0;
    if ops != [] && !PaymentMatches(row, ops[0]) {
      var rest := FirstMatchIsFirst(row, ops[1..]);
      i := rest + 1;
    }
  }

  /** The payments a lookup reads. */
  lemma FirstOnPage(tx: Transaction, pageSize: nat, row: Intent) returns (i: nat)
    requires WellFormedRow(row) && Comparable(row)
    ensures FirstMatch(row, FirstPage(tx, pageSize)).Some? <==> i < pageSize && FirstPayment(tx, row, i)
    ensures FirstMatch(row, FirstPage(tx, pageSize)).Some? ==>
      FirstMatch(row, FirstPage(tx, pageSize)).value == tx.operations[i]
    ensures (exists k: nat :: k < pageSize && FirstPayment(tx, row, k)) ==> i < pageSize && FirstPayment(tx, row, i)
  {
    hide PaymentMatches, Pays, FirstMatch, WellFormedRow, Comparable;
    var page := FirstPage(tx, pageSize);
    i := FirstMatchIsFirst(row, page);
    forall j | 0 <= j < |page| ensures PaymentMatches(row, page[j]) <==> Pays(tx.operations[j], row) {
      MatchesIffPays(page[j], row);
    }
    if k: nat :| k < pageSize && FirstPayment(tx, row, k) {
      assert !(i < k);
    }
  }

  /** The verdict of verifyByHash, in full: not found iff the network has no such transaction, and otherwise
      decided by its success, its memo and the first of the fetched records that pays the row. */
  lemma LookupInFull(ledger: Ledger, pageSize: nat, row: Intent, txHash: string)
    requires WellFormedLedger(ledger) && WellFormedRow(row) && Comparable(row)
    ensures var v := VerifyByHash(ledger, pageSize, row, txHash);
      && (v == Invalid(NOT_FOUND) <==> forall tx | tx in ledger :: !(tx.network == row.network && tx.hash == txHash))
      && forall tx | tx in ledger && tx.network == row.network && tx.hash == txHash ::
           VerdictOn(tx, pageSize, row, txHash, v)
  {
    hide FirstPage, FirstMatch, FirstPayment, MemoMatches, Comparable, WellFormedRow;
    forall tx | tx in ledger && tx.network == row.network && tx.hash == txHash
      ensures VerdictOn(tx, pageSize, row, txHash, VerifyByHash(ledger, pageSize, row, txHash))
      ensures VerifyByHash(ledger, pageSize, row, txHash) != Invalid(NOT_FOUND)
    {
      LookupFinds(ledger, tx);
      if tx.successful {
        MemoMatchesIff(tx, row, txHash);
        var i := FirstOnPage(tx, pageSize, row);
      }
    }
  }

  /** A transaction that pays the row under its memo is accepted if its records fit on one page. */
  lemma FittingPaymentIsAccepted(ledger: Ledger, pageSize: nat, row: Intent, tx: Transaction)
    requires WellFormedLedger(ledger) && WellFormedRow(row) && Comparable(row)
    requires tx in ledger && PaysUnderMemo(tx, row, tx.hash) && |tx.operations| <= pageSize
    ensures VerifyByHash(ledger, pageSize, row, tx.hash).Valid?
  {
    hide Pays, Comparable, WellFormedRow, UnderMemo;
    LookupInFull(ledger, pageSize, row, tx.hash);
    var i := LeastPayment(tx, row);
    assert i < pageSize && FirstPayment(tx, row, i);
    TheNetwork(tx, row);
  }

  lemma TheNetwork(tx: Transaction, row: Intent)
    requires UnderMemo(tx, row, tx.hash)
    ensures tx.network == row.network && tx.successful
  {
  }

  lemma LeastPayment(tx: Transaction, row: Intent) returns (i: nat)
    requires exists op :: op in tx.operations && Pays(op, row)
    ensures FirstPayment(tx, row, i)
  {
    hide Pays;
    i := 0;
    while !Pays(tx.operations[i], row)
      invariant i < |tx.operations| && forall j | 0 <= j < i :: !Pays(tx.operations[j], row)
      decreases |tx.operations| - i
    {
      i := i + 1;
    }
  }

  // ── The scan ───────────────────────────────────────────────────────────────

  /** The place of a payment of the row under its memo. */
  ghost predicate PaidAt(ledger: Ledger, row: Intent, p: Place) {
    && p.tx < |ledger| && UnderMemo(ledger[p.tx], row, ledger[p.tx].hash)
    && p.op < |ledger[p.tx].operations| && Pays(ledger[p.tx].operations[p.op], row)
  }

  ghost predicate LatestPaid(ledger: Ledger, row: Intent, p: Place) {
    PaidAt(ledger, row, p) && forall q | PaidAt(ledger, row, q) && q != p :: Later(p, q)
  }

  lemma PaysAtIff(ledger: Ledger, row: Intent, p: Place)
    requires WellFormedRow(row) && Comparable(row)
    ensures PaysAt(ledger, row, p) <==> PaidAt(ledger, row, p)
  {
    hide PaymentMatches, Comparable, WellFormedRow, MemoMatches;
    if p.tx < |ledger| && p.op < |ledger[p.tx].operations| {
      MatchesIffPays(ledger[p.tx].operations[p.op], row);
      if ledger[p.tx].network == row.network && ledger[p.tx].successful {
        MemoMatchesIff(ledger[p.tx], row, ledger[p.tx].hash);
      }
    }
  }

  /** The scan of a stored row, in full: it names the latest payment of the row under its memo, provided that
      fewer than `limit` payments to or from the destination came after it, and finds nothing otherwise. */
  lemma ScanInFull(ledger: Ledger, row: Intent, limit: nat)
    requires WellFormedLedger(ledger) && WellFormedRow(row) && Comparable(row)
    ensures var r := Scan(ledger, row, RecentPage(ledger, row.network, row.destination, limit));
      if exists p :: PaidAt(ledger, row, p) && Ahead(ledger, row, p) < limit
      then exists p :: LatestPaid(ledger, row, p) && Ahead(ledger, row, p) < limit
             && r == Valid(ledger[p.tx].hash, ledger[p.tx].operations[p.op].from)
      else r == Invalid(NOT_YET)
  {
    hide PaysAt, PaidAt, Ahead, Scan, RecentPage, WellFormedRow, Comparable;
    ScanFindsIff(ledger, row, limit);
    forall p ensures PaysAt(ledger, row, p) <==> PaidAt(ledger, row, p) {
      PaysAtIff(ledger, row, p);
    }
  }

  /** However many payments came before: a payment in the ledger's last transaction is found as long as that
      transaction holds at most `limit` payments to or from the destination. */
  lemma LastPaymentIsFound(ledger: Ledger, row: Intent, limit: nat, p: Place)
    requires WellFormedLedger(ledger) && WellFormedRow(row) && Comparable(row)
    requires PaidAt(ledger, row, p) && p.tx == |ledger| - 1
    requires |RecordsOf(ledger[p.tx].operations, row.destination)| <= limit
    ensures Scan(ledger, row, RecentPage(ledger, row.network, row.destination, limit)).Valid?
  {
    hide PaidAt, Ahead, RecordsOf, Scan, RecentPage, WellFormedRow, Comparable;
    ScanInFull(ledger, row, limit);
    PaysAtIff(ledger, row, p);
    AheadInLast(ledger, row, p);
  }
}
