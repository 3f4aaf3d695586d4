/** Which PATCH bodies can be trusted with a paid row. */
module Patches {
  import opened Wrappers
  import opened Decimals
  import opened Money
  import opened Assets
  import opened Memos
  import opened Intents
  import opened Verifier
  import opened Lifecycle
  import opened Settlement
  import opened Races

  /** SUCCEEDED means paid, with no row exempt. */
  ghost predicate Truthful(ledger: Ledger, row: Intent) {
    row.status == SUCCEEDED ==> row.txHash.Some? && Fulfils(ledger, row, row.txHash.value)
  }

  ghost predicate AllTruthful(t: Table, ledger: Ledger) { forall id | id in t :: Truthful(ledger, t[id]) }

  /** The table once a PATCH of this row has been written, or refused. */
  ghost function AfterPatch(s: System, consumer: string, id: string, patch: Patch): Table {
    Updating(s, WritePatch(consumer, id, patch)).table
  }

  /** From every reachable state in which SUCCEEDED means paid, writing the patch to any row keeps it so. */
  ghost predicate KeepsTruth(c: Config, patch: Patch) {
    forall actions: seq<Action>, consumer: string, id: string ::
      AllTruthful(Run(c, actions).table, Run(c, actions).ledger)
      ==> AllTruthful(AfterPatch(Run(c, actions), consumer, id, patch), Run(c, actions).ledger)
  }

  lemma SafeKeepsTruth(s: System, consumer: string, id: string, patch: Patch)
    requires SafePatch(patch) && AllTruthful(s.table, s.ledger)
    ensures AllTruthful(AfterPatch(s, consumer, id, patch), s.ledger)
  {
    hide Fulfils;
    if id in s.table {
      var row := s.table[id];
      if row.status == SUCCEEDED && patch.status.None? {
        assert Truthful(s.ledger, row);
        FulfilsStable(s.ledger, s.ledger, row, Patched(row, patch), row.txHash.value);
      }
    }
  }

  /** A pay request any caller may send. */
  function SampleRequest(): CreateRequest {
    CreateRequest("consumer", PAY, PUBLIC, None, "destination", None, Asset(NATIVE, None), ToDecimal(1))
  }

  lemma SampleIsValid()
    ensures ValidRequest(SampleRequest()) && SampleRequest().kind == PAY
  {
    ToDecimalRoundTrip(1);
  }

  /** A PATCH to SUCCEEDED marks a row paid for which nothing is on the ledger, whatever hash it names. */
  lemma StatusForges(c: Config, patch: Patch) returns (actions: seq<Action>, row: Intent)
    requires patch.status == Some(SUCCEEDED)
    ensures var s := Run(c, actions);
      AllTruthful(s.table, s.ledger) && !AllTruthful(AfterPatch(s, row.consumer, row.id, patch), s.ledger)
  {
    SampleIsValid();
    actions, row := CreatePay(c, SampleRequest(), "id");
    var s := Run(c, actions);
    PatchEffect(s, row, patch);
    var after := AfterPatch(s, row.consumer, row.id, patch);
    assert after == map[row.id := Patched(row, patch)];
    assert !Truthful(s.ledger, after[row.id]);
  }

  /** A row paid by the transaction its hash names: a payment was made and an honest PATCH reported it. */
  lemma HonestlyReported(c: Config, txHash: string) returns (actions: seq<Action>, row: Intent)
    ensures var s := Run(c, actions);
      && s.table == map[row.id := row] && row.status == SUCCEEDED && row.txHash == Some(txHash)
      && AllTruthful(s.table, s.ledger) && forall tx | tx in s.ledger :: tx.hash == txHash
  {
    SampleIsValid();
    var q := SampleRequest();
    var created, unpaid := CreatePay(c, q, "id");
    PaymentFits(unpaid, txHash);
    var tx := Payment(unpaid, txHash);
    Append(c, created, LedgerGrows(tx));
    var paid := created + [LedgerGrows(tx)];
    assert [] + [tx] == [tx];
    var report := Patch(Some(SUCCEEDED), Some(Some(txHash)), None);
    actions := PatchWrites(c, paid, unpaid, report);
    row := Patched(unpaid, report);
    PaidByItsPayment(unpaid, row, txHash);
  }

  /** A row the service itself settled: the payment was made and validate found it. */
  lemma ServiceSettled(c: Config, txHash: string) returns (actions: seq<Action>, row: Intent)
    requires c.pageSize >= 1
    ensures var s := Run(c, actions);
      && s.table == map[row.id := row] && row.status == SUCCEEDED && row.txHash == Some(txHash)
      && AllTruthful(s.table, s.ledger) && (forall tx | tx in s.ledger :: tx.hash == txHash) && s.patched == {}
  {
    SampleIsValid();
    var created, unpaid := CreatePay(c, SampleRequest(), "id");
    PaymentFits(unpaid, txHash);
    var tx := Payment(unpaid, txHash);
    Append(c, created, LedgerGrows(tx));
    actions := created + [LedgerGrows(tx)];
    assert [] + [tx] == [tx];
    var s := Run(c, actions);
    assert Ready(c, s, unpaid, txHash);
    actions := ValidateStarts(c, actions, unpaid, txHash);
    actions := ValidateVerifies(c, s, actions, unpaid, txHash);
    actions := ValidateSettles(c, s, actions, unpaid, txHash);
    row := Settled(unpaid, txHash, Some("payer"));
    PaidByItsPayment(unpaid, row, txHash);
  }

  lemma PaidByItsPayment(unpaid: Intent, row: Intent, txHash: string)
    requires WellFormedRow(unpaid) && SameTerms(unpaid, row)
    ensures Fulfils([Payment(unpaid, txHash)], row, txHash)
  {
    hide NumberOf, StrictlyEqual;
    var tx := Payment(unpaid, txHash);
    PaymentFits(unpaid, txHash);
    assert PaymentMatches(row, tx.operations[0]);
    assert Carries(tx, row, txHash);
  }

  /** A PATCH that gives a paid row another hash, or none, leaves it SUCCEEDED without a payment behind it;
      where a lookup can see a payment at all, the row is one the service settled itself. */
  lemma HashForges(c: Config, patch: Patch) returns (actions: seq<Action>, row: Intent)
    requires patch.status == None && patch.txHash.Some?
    ensures var s := Run(c, actions);
      AllTruthful(s.table, s.ledger) && !AllTruthful(AfterPatch(s, row.consumer, row.id, patch), s.ledger)
    ensures c.pageSize >= 1 ==> row.id !in Run(c, actions).patched
  {
    var paidBy := if patch.txHash.value == Some("a") then "b" else "a";
    if c.pageSize >= 1 {
      actions, row := ServiceSettled(c, paidBy);
    } else {
      actions, row := HonestlyReported(c, paidBy);
    }
    var s := Run(c, actions);
    PatchEffect(s, row, patch);
    var after := AfterPatch(s, row.consumer, row.id, patch);
    assert after == map[row.id := Patched(row, patch)];
    assert !Truthful(s.ledger, after[row.id]);
  }

  /** A PATCH body keeps SUCCEEDED meaning paid, in every reachable state, iff it sets a status other than
      SUCCEEDED, or touches neither status nor hash. */
  lemma KeepsTruthIff(c: Config, patch: Patch)
    ensures KeepsTruth(c, patch) <==> SafePatch(patch)
  {
    hide Run, AllTruthful, AfterPatch;
    if SafePatch(patch) {
      forall actions: seq<Action>, consumer: string, id: string
        | AllTruthful(Run(c, actions).table, Run(c, actions).ledger)
        ensures AllTruthful(AfterPatch(Run(c, actions), consumer, id, patch), Run(c, actions).ledger)
      {
        SafeKeepsTruth(Run(c, actions), consumer, id, patch);
      }
    } else if patch.status.Some? {
      var actions, row := StatusForges(c, patch);
      assert !AllTruthful(AfterPatch(Run(c, actions), row.consumer, row.id, patch), Run(c, actions).ledger);
    } else {
      var actions, row := HashForges(c, patch);
      assert !AllTruthful(AfterPatch(Run(c, actions), row.consumer, row.id, patch), Run(c, actions).ledger);
    }
  }
}
