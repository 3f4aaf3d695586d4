/** The rule that an on-chain transaction fulfils an intent, by hash and by scanning. */
module Verifier {
  import opened Wrappers
  import opened Money
  import opened Intents

  /** A record of Horizon's payments endpoint. */
  datatype Operation = Operation(
    kind: string,
    txHash: string,
    from: string,
    to: string,
    assetType: string,
    assetCode: Option<string>,
    assetIssuer: Option<string>,
    amount: string)

  datatype Transaction = Transaction(
    network: Network,
    hash: string,
    successful: bool,
    memoType: Option<string>,
    memo: Option<string>,
    operations: seq<Operation>)

  /** What Horizon shows of both networks, oldest first. It only ever grows. */
  type Ledger = seq<Transaction>

  datatype Reason = NOT_FOUND | FAILED_ON_CHAIN | MEMO_MISMATCH | NO_PAYMENT | NO_DESTINATION | NOT_YET

  datatype Verification = Valid(txHash: string, payer: string) | Invalid(reason: Reason)

  /** `paymentMatches`: destination, asset, and the amount when the intent fixes one. */
  predicate PaymentMatches(intent: Intent, op: Operation) {
    && op.kind == "payment"
    && op.to == intent.destination
    && (if intent.asset.code == "native" then op.assetType == "native"
        else op.assetCode == Some(intent.asset.code) && op.assetIssuer.Some? && op.assetIssuer == intent.asset.issuer)
    && (intent.amount.Some? ==> StrictlyEqual(NumberOf(op.amount), NumberOf(intent.amount.value)))
  }

  /** `memoMatches` */
  predicate MemoMatches(intent: Intent, memoType: Option<string>, memo: Option<string>) {
    memoType == Some("id") && (if memo.Some? then memo.value else "") == intent.memo
  }

  /** One transaction per hash on each network, and every record names its transaction. */
  ghost predicate WellFormedLedger(ledger: Ledger) {
    && (forall i, j | 0 <= i < j < |ledger| ::
          !(ledger[i].network == ledger[j].network && ledger[i].hash == ledger[j].hash))
    && forall tx, op | tx in ledger && op in tx.operations :: op.txHash == tx.hash
  }

  /** `transactions().transaction(hash)`: None is a 404. */
  function Lookup(ledger: Ledger, network: Network, hash: string): (tx: Option<Transaction>)
    ensures tx.Some? ==> tx.value in ledger && tx.value.network == network && tx.value.hash == hash
    ensures tx.None? ==> forall other | other in ledger :: other.network != network || other.hash != hash
  {
    if ledger == [] then None
    else if ledger[0].network == network && ledger[0].hash == hash then Some(ledger[0])
    else Lookup(ledger[1..], network, hash)
  }

  lemma LookupFinds(ledger: Ledger, tx: Transaction)
    requires WellFormedLedger(ledger) && tx in ledger
    ensures Lookup(ledger, tx.network, tx.hash) == Some(tx)
  {
    var found := Lookup(ledger, tx.network, tx.hash);
    assert found.Some?;
    var i :| 0 <= i < |ledger| && ledger[i] == tx;
    var j :| 0 <= j < |ledger| && ledger[j] == found.value;
  }

  /** `records.find(...)` */
  function FirstMatch(intent: Intent, ops: seq<Operation>): (op: Option<Operation>)
    ensures op.Some? ==> op.value in ops && PaymentMatches(intent, op.value)
    ensures op.None? <==> forall other | other in ops :: !PaymentMatches(intent, other)
  {
    if ops == [] then None
    else if PaymentMatches(intent, ops[0]) then Some(ops[0])
    else FirstMatch(intent, ops[1..])
  }

  /** The first page of a transaction's records. */
  function FirstPage(tx: Transaction, pageSize: nat): seq<Operation> {
    if |tx.operations| <= pageSize then tx.operations else tx.operations[..pageSize]
  }

  /** `verifyByHash`. A page holds `pageSize` records. */
  function VerifyByHash(ledger: Ledger, pageSize: nat, intent: Intent, txHash: string): Verification {
    var tx := Lookup(ledger, intent.network, txHash);
    if tx.None? then Invalid(NOT_FOUND)
    else if !tx.value.successful then Invalid(FAILED_ON_CHAIN)
    else if !MemoMatches(intent, tx.value.memoType, tx.value.memo) then Invalid(MEMO_MISMATCH)
    else
      var op := FirstMatch(intent, FirstPage(tx.value, pageSize));
      if op.None? then Invalid(NO_PAYMENT) else Valid(txHash, op.value.from)
  }

  /** The meaning of acceptance, independent of how it was found. */
  ghost predicate Fulfils(ledger: Ledger, intent: Intent, txHash: string) {
    exists tx :: tx in ledger && Carries(tx, intent, txHash)
  }

  ghost predicate Carries(tx: Transaction, intent: Intent, txHash: string) {
    && tx.network == intent.network && tx.hash == txHash && tx.successful
    && MemoMatches(intent, tx.memoType, tx.memo)
    && exists op :: op in tx.operations && PaymentMatches(intent, op)
  }

  /** A payment of the ledger through which its own transaction fulfils the intent. */
  ghost predicate FulfilsThrough(ledger: Ledger, intent: Intent, op: Operation) {
    exists tx :: tx in ledger && op in tx.operations && Carries(tx, intent, op.txHash) && PaymentMatches(intent, op)
  }

  /** A page of the destination's payment records, most recent first: every record is on the ledger. */
  ghost predicate PageOf(ledger: Ledger, network: Network, page: seq<Operation>) {
    forall op | op in page :: OnLedger(ledger, network, op)
  }

  ghost predicate OnLedger(ledger: Ledger, network: Network, op: Operation) {
    exists tx :: tx in ledger && tx.network == network && op in tx.operations
  }

  /** The lookup accepts a hash iff the transaction fulfils the intent and the payment that does so
      is among its first `pageSize` records. */
  lemma LookupAcceptsIff(ledger: Ledger, pageSize: nat, intent: Intent, txHash: string)
    requires WellFormedLedger(ledger)
    ensures VerifyByHash(ledger, pageSize, intent, txHash).Valid? <==>
              Fulfils(ledger, intent, txHash)
              && FirstMatch(intent, FirstPage(Lookup(ledger, intent.network, txHash).value, pageSize)).Some?
    ensures var r := VerifyByHash(ledger, pageSize, intent, txHash); r.Valid? ==> r.txHash == txHash
  {
    if Fulfils(ledger, intent, txHash) {
      var tx :| tx in ledger && Carries(tx, intent, txHash);
      LookupFinds(ledger, tx);
    }
  }

  /** Only the columns in `SameTerms` matter, and a longer ledger refutes nothing. */
  lemma FulfilsStable(ledger: Ledger, longer: Ledger, a: Intent, b: Intent, txHash: string)
    requires ledger <= longer && SameTerms(a, b) && Fulfils(ledger, a, txHash)
    ensures Fulfils(longer, b, txHash)
  {
    var tx :| tx in ledger && Carries(tx, a, txHash);
    var op :| op in tx.operations && PaymentMatches(a, op);
    assert PaymentMatches(b, op);
    assert tx in longer;
  }

  /** One transaction fulfils intents with a single memo. */
  lemma OneMemoPerTransaction(ledger: Ledger, a: Intent, b: Intent, txHash: string)
    requires WellFormedLedger(ledger) && a.network == b.network
    requires Fulfils(ledger, a, txHash) && Fulfils(ledger, b, txHash)
    ensures a.memo == b.memo
  {
    var s :| s in ledger && Carries(s, a, txHash);
    var t :| t in ledger && Carries(t, b, txHash);
    LookupFinds(ledger, s);
    LookupFinds(ledger, t);
  }

  // ── Scanning ───────────────────────────────────────────────────────────────

  predicate Involves(op: Operation, account: string) { op.to == account || op.from == account }

  /** A transaction's records that involve the account, last first. */
  function RecordsOf(ops: seq<Operation>, account: string): (r: seq<Operation>)
    ensures forall op :: op in r <==> op in ops && Involves(op, account)
  {
    if ops == [] then []
    else
      var last := ops[|ops| - 1];
      (if Involves(last, account) then [last] else []) + RecordsOf(ops[..|ops| - 1], account)
  }

  /** The account's payment records, most recent first. Horizon leaves failed transactions out. */
  function AccountRecords(ledger: Ledger, network: Network, account: string): (r: seq<Operation>)
    ensures PageOf(ledger, network, r)
  {
    if ledger == [] then []
    else
      var tx, older := ledger[|ledger| - 1], AccountRecords(ledger[..|ledger| - 1], network, account);
      assert forall op :: OnLedger(ledger[..|ledger| - 1], network, op) ==> OnLedger(ledger, network, op);
      if tx.network == network && tx.successful then RecordsOf(tx.operations, account) + older else older
  }

  /** `payments().forAccount(account).order('desc').limit(limit)` */
  function RecentPage(ledger: Ledger, network: Network, account: string, limit: nat): (page: seq<Operation>)
    ensures PageOf(ledger, network, page)
  {
    var records := AccountRecords(ledger, network, account);
    if |records| <= limit then records else records[..limit]
  }

  /** `findMatchingPayment`. The result names the most recent of the destination's last `limit` records
      whose transaction fulfils the intent through it. `known` is whether the account exists. */
  method FindMatchingPayment(ledger: Ledger, intent: Intent, limit: nat, known: bool)
    returns (result: Verification)
    requires WellFormedLedger(ledger)
    ensures !known ==> result == Invalid(NO_DESTINATION)
    ensures known ==> result == Scan(ledger, intent, RecentPage(ledger, intent.network, intent.destination, limit))
    ensures var page := RecentPage(ledger, intent.network, intent.destination, limit);
      if exists op :: op in page && known && FulfilsThrough(ledger, intent, op)
      then exists i :: 0 <= i < |page| && MostRecent(ledger, intent, page, i)
             && result == Valid(page[i].txHash, page[i].from)
      else result == Invalid(if known then NOT_YET else NO_DESTINATION)
  {
    if !known {
      return Invalid(NO_DESTINATION);
    }
    var page := RecentPage(ledger, intent.network, intent.destination, limit);
    for i := 0 to |page|
      invariant forall j | 0 <= j < i :: !FulfilsThrough(ledger, intent, page[j])
      invariant Scan(ledger, intent, page) == Scan(ledger, intent, page[i..])
    {
      var op := page[i];
      assert OnLedger(ledger, intent.network, op);
      assert page[i..][1..] == page[i + 1..];
      AdmitsIffFulfils(ledger, intent, op);
      if !PaymentMatches(intent, op) {
        continue;
      }
      var tx := Lookup(ledger, intent.network, op.txHash);
      if !tx.value.successful {
        continue;
      }
      if !MemoMatches(intent, tx.value.memoType, tx.value.memo) {
        continue;
      }
      assert MostRecent(ledger, intent, page, i);
      return Valid(op.txHash, op.from);
    }
    return Invalid(NOT_YET);
  }

  ghost predicate MostRecent(ledger: Ledger, intent: Intent, page: seq<Operation>, i: nat)
    requires i < |page|
  {
    && FulfilsThrough(ledger, intent, page[i])
    && forall j | 0 <= j < i :: !FulfilsThrough(ledger, intent, page[j])
  }

  /** The scan's test on one record. */
  predicate Admits(ledger: Ledger, intent: Intent, op: Operation) {
    && PaymentMatches(intent, op)
    && var tx := Lookup(ledger, intent.network, op.txHash);
      tx.Some? && tx.value.successful && MemoMatches(intent, tx.value.memoType, tx.value.memo)
  }

  function Scan(ledger: Ledger, intent: Intent, page: seq<Operation>): Verification {
    if page == [] then Invalid(NOT_YET)
    else if Admits(ledger, intent, page[0]) then Valid(page[0].txHash, page[0].from)
    else Scan(ledger, intent, page[1..])
  }

  lemma AdmitsIffFulfils(ledger: Ledger, intent: Intent, op: Operation)
    requires WellFormedLedger(ledger) && OnLedger(ledger, intent.network, op)
    ensures Lookup(ledger, intent.network, op.txHash).Some?
    ensures Admits(ledger, intent, op) <==> FulfilsThrough(ledger, intent, op)
  {
    var tx :| tx in ledger && tx.network == intent.network && op in tx.operations;
    LookupFinds(ledger, tx);
    if FulfilsThrough(ledger, intent, op) {
      var other :| other in ledger && op in other.operations && Carries(other, intent, op.txHash)
          && PaymentMatches(intent, op);
      LookupFinds(ledger, other);
    }
  }

  /** A scan that succeeds found a fulfilling transaction. */
  lemma {:induction false} ScanSound(ledger: Ledger, intent: Intent, page: seq<Operation>)
    requires WellFormedLedger(ledger) && PageOf(ledger, intent.network, page)
    ensures var r := Scan(ledger, intent, page);
      r.Valid? ==> Fulfils(ledger, intent, r.txHash)
                   && exists op :: op in page && FulfilsThrough(ledger, intent, op) && op.txHash == r.txHash
  {
    if page != [] {
      AdmitsIffFulfils(ledger, intent, page[0]);
      ScanSound(ledger, intent, page[1..]);
    }
  }

  lemma {:induction false} ScanValidIff(ledger: Ledger, intent: Intent, page: seq<Operation>)
    requires WellFormedLedger(ledger) && PageOf(ledger, intent.network, page)
    ensures Scan(ledger, intent, page).Valid? <==> exists op :: op in page && FulfilsThrough(ledger, intent, op)
  {
    if page != [] {
      AdmitsIffFulfils(ledger, intent, page[0]);
      ScanValidIff(ledger, intent, page[1..]);
    }
  }

  // ── The order of the page ──────────────────────────────────────────────────

  /** Where a record stands: its transaction in the ledger, its operation in the transaction. */
  datatype Place = Place(tx: nat, op: nat)

  predicate Later(p: Place, q: Place) { p.tx > q.tx || (p.tx == q.tx && p.op > q.op) }

  /** The place of a payment to or from the account, in a successful transaction of the network. */
  predicate Shown(ledger: Ledger, network: Network, account: string, p: Place) {
    && p.tx < |ledger| && ledger[p.tx].network == network && ledger[p.tx].successful
    && p.op < |ledger[p.tx].operations|
    && var op := ledger[p.tx].operations[p.op]; op.to == account || op.from == account
  }

  /** The records are those of all such places, each once, the latest first. */
  ghost predicate Lists(ledger: Ledger, network: Network, account: string, records: seq<Operation>, at: seq<Place>) {
    && |at| == |records|
    && (forall k | 0 <= k < |at| ::
          Shown(ledger, network, account, at[k]) && records[k] == ledger[at[k].tx].operations[at[k].op])
    && (forall i, j | 0 <= i < j < |at| :: Later(at[i], at[j]))
    && forall p | Shown(ledger, network, account, p) :: p in at
  }

  /** The same within one transaction. */
  ghost predicate ListsWithin(ops: seq<Operation>, account: string, records: seq<Operation>, at: seq<nat>) {
    && |at| == |records|
    && (forall k | 0 <= k < |at| :: at[k] < |ops| && Involves(ops[at[k]], account) && records[k] == ops[at[k]])
    && (forall i, j | 0 <= i < j < |at| :: at[i] > at[j])
    && forall x | 0 <= x < |ops| && Involves(ops[x], account) :: x in at
  }

  lemma ListsOneMore(ops: seq<Operation>, account: string, records: seq<Operation>, at: seq<nat>)
    requires ops != [] && ListsWithin(ops[..|ops| - 1], account, records, at)
    ensures var last := ops[|ops| - 1];
      if Involves(last, account) then ListsWithin(ops, account, [last] + records, [|ops| - 1] + at)
      else ListsWithin(ops, account, records, at)
  {
    hide Involves;
    var n := |ops| - 1;
    forall x | 0 <= x < n && Involves(ops[x], account) ensures x in at {
      assert ops[..n][x] == ops[x];
    }
  }

  lemma {:induction false} OperationsInOrder(ops: seq<Operation>, account: string) returns (at: seq<nat>)
    ensures ListsWithin(ops, account, RecordsOf(ops, account), at)
  {
    hide Involves, ListsWithin;
    at := [];
    if ops == [] {
      NothingWithin(account);
    } else {
      var last, front := |ops| - 1, ops[..|ops| - 1];
      at := OperationsInOrder(front, account);
      ListsOneMore(ops, account, RecordsOf(front, account), at);
      at := if Involves(ops[last], account) then [last] + at else at;
      assert RecordsOf(front, account) == [] + RecordsOf(front, account);
    }
  }

  lemma NothingWithin(account: string)
    ensures ListsWithin([], account, [], [])
  {
  }

  function Places(tx: nat, at: seq<nat>): seq<Place> { seq(|at|, k requires 0 <= k < |at| => Place(tx, at[k])) }

  lemma ShownBefore(ledger: Ledger, network: Network, account: string, p: Place)
    requires ledger != [] && p.tx < |ledger| - 1
    ensures Shown(ledger, network, account, p) <==> Shown(ledger[..|ledger| - 1], network, account, p)
  {
  }

  lemma ShownLast(ledger: Ledger, network: Network, account: string, records: seq<Operation>, at: seq<nat>, p: Place)
    requires ledger != [] && p.tx == |ledger| - 1
    requires var tx := ledger[|ledger| - 1];
      tx.network == network && tx.successful && ListsWithin(tx.operations, account, records, at)
    ensures Shown(ledger, network, account, p) <==> p.op in at
  {
    if Shown(ledger, network, account, p) {
      assert Involves(ledger[p.tx].operations[p.op], account);
    }
  }

  lemma PlacesOf(tx: nat, at: seq<nat>, p: Place)
    ensures p in Places(tx, at) <==> p.tx == tx && p.op in at
  {
    if p.tx == tx && p.op in at {
      var k :| 0 <= k < |at| && at[k] == p.op;
      assert Places(tx, at)[k] == p;
    }
  }

  /** The places of a longer ledger: those in its last transaction, and those before. */
  lemma ShownSplit(ledger: Ledger, network: Network, account: string, newest: seq<Operation>, places: seq<nat>,
                   older: seq<Operation>, at: seq<Place>, p: Place)
    requires ledger != [] && Lists(ledger[..|ledger| - 1], network, account, older, at)
    requires var tx := ledger[|ledger| - 1];
      && tx.network == network && tx.successful && ListsWithin(tx.operations, account, newest, places)
    ensures Shown(ledger, network, account, p) <==> p in Places(|ledger| - 1, places) || p in at
    ensures p in at ==> p.tx < |ledger| - 1
  {
    hide Shown, Involves, Places;
    var n := |ledger| - 1;
    PlacesOf(n, places, p);
    ShownInRange(ledger, network, account, p);
    ShownInRange(ledger[..n], network, account, p);
    if p.tx == n {
      ShownLast(ledger, network, account, newest, places, p);
    } else if p.tx < n {
      ShownBefore(ledger, network, account, p);
    }
  }

  lemma ShownInRange(ledger: Ledger, network: Network, account: string, p: Place)
    ensures Shown(ledger, network, account, p) ==> p.tx < |ledger|
  {
  }

  /** The records of the last transaction go before all others. */
  lemma ListsLast(ledger: Ledger, network: Network, account: string, newest: seq<Operation>, places: seq<nat>,
                  older: seq<Operation>, at: seq<Place>)
    requires ledger != [] && Lists(ledger[..|ledger| - 1], network, account, older, at)
    requires var tx := ledger[|ledger| - 1];
      && tx.network == network && tx.successful && ListsWithin(tx.operations, account, newest, places)
    ensures Lists(ledger, network, account, newest + older, Places(|ledger| - 1, places) + at)
  {
    hide Shown, Involves, Places, Later, ListsWithin;
    var all := Places(|ledger| - 1, places) + at;
    forall p ensures Shown(ledger, network, account, p) <==> p in all {
      ShownSplit(ledger, network, account, newest, places, older, at, p);
    }
    ListsLastInOrder(ledger, network, account, newest, places, older, at);
    forall k | 0 <= k < |all| ensures Shown(ledger, network, account, all[k]) {
      assert all[k] in all;
    }
  }

  lemma ListsLastInOrder(ledger: Ledger, network: Network, account: string, newest: seq<Operation>, places: seq<nat>,
                         older: seq<Operation>, at: seq<Place>)
    requires ledger != [] && Lists(ledger[..|ledger| - 1], network, account, older, at)
    requires ListsWithin(ledger[|ledger| - 1].operations, account, newest, places)
    ensures var all := Places(|ledger| - 1, places) + at;
      && |all| == |newest + older|
      && (forall i, j | 0 <= i < j < |all| :: Later(all[i], all[j]))
      && forall k | 0 <= k < |all| ::
           && all[k].tx < |ledger| && all[k].op < |ledger[all[k].tx].operations|
           && (newest + older)[k] == ledger[all[k].tx].operations[all[k].op]
  {
    hide Involves;
    var n, first := |ledger| - 1, Places(|ledger| - 1, places);
    assert forall k | 0 <= k < |at| :: Shown(ledger[..n], network, account, at[k]);
    assert forall k | 0 <= k < |first| :: first[k] == Place(n, places[k]);
    assert |first| == |newest|;
  }

  lemma ListsWithoutLast(ledger: Ledger, network: Network, account: string, older: seq<Operation>, at: seq<Place>)
    requires ledger != [] && Lists(ledger[..|ledger| - 1], network, account, older, at)
    requires var tx := ledger[|ledger| - 1]; tx.network != network || !tx.successful
    ensures Lists(ledger, network, account, older, at)
  {
    forall p | Shown(ledger, network, account, p) ensures p in at {
      assert Shown(ledger[..|ledger| - 1], network, account, p);
    }
    forall k | 0 <= k < |at| ensures Shown(ledger, network, account, at[k]) {
      assert Shown(ledger[..|ledger| - 1], network, account, at[k]);
    }
  }

  /** An account's records are exactly its payments in the network's successful transactions, each once, in
      the reverse of the ledger's order. */
  lemma {:induction false} RecordsInOrder(ledger: Ledger, network: Network, account: string) returns (at: seq<Place>)
    ensures Lists(ledger, network, account, AccountRecords(ledger, network, account), at)
  {
    hide Shown, Later, Involves, RecordsOf, ListsWithin;
    at := [];
    if ledger == [] {
      NothingShown(network, account);
    } else {
      var n := |ledger| - 1;
      var tx, older := ledger[n], AccountRecords(ledger[..n], network, account);
      at := RecordsInOrder(ledger[..n], network, account);
      if tx.network == network && tx.successful {
        var places := OperationsInOrder(tx.operations, account);
        ListsLast(ledger, network, account, RecordsOf(tx.operations, account), places, older, at);
        at := Places(n, places) + at;
      } else {
        ListsWithoutLast(ledger, network, account, older, at);
      }
    }
  }

  lemma NothingShown(network: Network, account: string)
    ensures Lists([], network, account, [], [])
  {
  }

  /** The account's payments that are later than a place. */
  ghost function Newer(ledger: Ledger, network: Network, account: string, p: Place): set<Place> {
    set a, x | 0 <= a < |ledger| && 0 <= x < |ledger[a].operations|
               && Shown(ledger, network, account, Place(a, x)) && Later(Place(a, x), p) :: Place(a, x)
  }

  lemma {:induction false} DistinctPlaces(at: seq<Place>)
    requires forall i, j | 0 <= i < j < |at| :: Later(at[i], at[j])
    ensures |(set p | p in at)| == |at|
  {
    if at != [] {
      var front, last := at[..|at| - 1], at[|at| - 1];
      DistinctPlaces(front);
      assert (set p | p in at) == (set p | p in front) + {last};
    }
  }

  /** A record's position in the list is the number of newer ones. */
  lemma PositionIsNewer(ledger: Ledger, network: Network, account: string, records: seq<Operation>, at: seq<Place>,
                        k: nat)
    requires Lists(ledger, network, account, records, at) && k < |at|
    ensures |Newer(ledger, network, account, at[k])| == k
  {
    DistinctPlaces(at[..k]);
    assert Newer(ledger, network, account, at[k]) == set p | p in at[..k] by {
      forall p | p in Newer(ledger, network, account, at[k]) ensures p in at[..k] {
        var i :| 0 <= i < |at| && at[i] == p;
        assert i < k;
      }
    }
  }

  /** The place of a payment through which its transaction fulfils the intent. */
  ghost predicate PaysAt(ledger: Ledger, intent: Intent, p: Place) {
    && Shown(ledger, intent.network, intent.destination, p)
    && MemoMatches(intent, ledger[p.tx].memoType, ledger[p.tx].memo)
    && PaymentMatches(intent, ledger[p.tx].operations[p.op])
  }

  /** How many of the destination's payments a scan must read before this one. */
  ghost function Ahead(ledger: Ledger, intent: Intent, p: Place): nat {
    |Newer(ledger, intent.network, intent.destination, p)|
  }

  ghost predicate LatestPayment(ledger: Ledger, intent: Intent, p: Place) {
    PaysAt(ledger, intent, p) && forall q | PaysAt(ledger, intent, q) && q != p :: Later(p, q)
  }

  /** Nothing is ahead of a payment in the last transaction but that transaction's own. */
  lemma AheadInLast(ledger: Ledger, intent: Intent, p: Place)
    requires PaysAt(ledger, intent, p) && p.tx == |ledger| - 1
    ensures Ahead(ledger, intent, p) < |RecordsOf(ledger[p.tx].operations, intent.destination)|
  {
    hide RecordsOf, Newer, ListsWithin, MemoMatches, PaymentMatches;
    var tx, network, account := ledger[p.tx], intent.network, intent.destination;
    var older := AccountRecords(ledger[..p.tx], network, account);
    var before := RecordsInOrder(ledger[..p.tx], network, account);
    var places := OperationsInOrder(tx.operations, account);
    var newest := RecordsOf(tx.operations, account);
    ListsLast(ledger, network, account, newest, places, older, before);
    var at := Places(p.tx, places) + before;
    var k :| 0 <= k < |at| && at[k] == p;
    PositionIsNewer(ledger, network, account, newest + older, at, k);
    WithinCount(tx.operations, account, newest, places);
  }

  lemma WithinCount(ops: seq<Operation>, account: string, records: seq<Operation>, at: seq<nat>)
    requires ListsWithin(ops, account, records, at)
    ensures |at| == |records|
  {
  }

  lemma {:induction false} ScanIsFirst(ledger: Ledger, intent: Intent, page: seq<Operation>) returns (i: nat)
    ensures i <= |page| && forall j | 0 <= j < i :: !Admits(ledger, intent, page[j])
    ensures Scan(ledger, intent, page)
         == if i == |page| then Invalid(NOT_YET) else Valid(page[i].txHash, page[i].from)
    ensures i < |page| ==> Admits(ledger, intent, page[i])
  {
    i := 0;
    if page != [] && !Admits(ledger, intent, page[0]) {
      var rest := ScanIsFirst(ledger, intent, page[1..]);
      i := rest + 1;
    }
  }

  lemma AdmitsIffPaysAt(ledger: Ledger, intent: Intent, p: Place)
    requires WellFormedLedger(ledger) && Shown(ledger, intent.network, intent.destination, p)
    ensures Admits(ledger, intent, ledger[p.tx].operations[p.op]) <==> PaysAt(ledger, intent, p)
  {
    hide PaymentMatches, MemoMatches;
    LookupFinds(ledger, ledger[p.tx]);
  }

  lemma PaysAtShown(ledger: Ledger, intent: Intent, p: Place)
    requires PaysAt(ledger, intent, p)
    ensures Shown(ledger, intent.network, intent.destination, p)
  {
  }

  lemma RecordNames(ledger: Ledger, intent: Intent, p: Place)
    requires WellFormedLedger(ledger) && Shown(ledger, intent.network, intent.destination, p)
    ensures ledger[p.tx].operations[p.op].txHash == ledger[p.tx].hash
  {
  }

  /** The scan succeeds iff some payment fulfils the intent with fewer than `limit` newer payments of the
      destination's account after it, and names the latest one that fulfils. */
  lemma ScanFindsIff(ledger: Ledger, intent: Intent, limit: nat)
    requires WellFormedLedger(ledger)
    ensures var r := Scan(ledger, intent, RecentPage(ledger, intent.network, intent.destination, limit));
      if exists p :: PaysAt(ledger, intent, p) && Ahead(ledger, intent, p) < limit
      then exists p :: LatestPayment(ledger, intent, p) && Ahead(ledger, intent, p) < limit
             && r == Valid(ledger[p.tx].hash, ledger[p.tx].operations[p.op].from)
      else r == Invalid(NOT_YET)
  {
    hide Newer, Shown, Admits, PaysAt, AccountRecords;
    var at := RecordsInOrder(ledger, intent.network, intent.destination);
    var records := AccountRecords(ledger, intent.network, intent.destination);
    var page := RecentPage(ledger, intent.network, intent.destination, limit);
    var i := ScanIsFirst(ledger, intent, page);
    forall k | 0 <= k < |at|
      ensures Ahead(ledger, intent, at[k]) == k
      ensures Admits(ledger, intent, records[k]) <==> PaysAt(ledger, intent, at[k])
    {
      PositionIsNewer(ledger, intent.network, intent.destination, records, at, k);
      AdmitsIffPaysAt(ledger, intent, at[k]);
    }
    forall p | PaysAt(ledger, intent, p)
      ensures p in at
    {
      PaysAtShown(ledger, intent, p);
    }
    if i < |page| {
      assert page[i] == records[i];
      assert PaysAt(ledger, intent, at[i]);
      RecordNames(ledger, intent, at[i]);
    }
  }

  lemma FulfilledAt(ledger: Ledger, intent: Intent, txHash: string) returns (p: Place)
    requires Fulfils(ledger, intent, txHash)
    ensures PaysAt(ledger, intent, p)
  {
    hide MemoMatches, StrictlyEqual, NumberOf;
    var tx :| tx in ledger && Carries(tx, intent, txHash);
    var a :| 0 <= a < |ledger| && ledger[a] == tx;
    var op :| op in tx.operations && PaymentMatches(intent, op);
    var x :| 0 <= x < |tx.operations| && tx.operations[x] == op;
    p := Place(a, x);
  }

  lemma PaysAtFulfils(ledger: Ledger, intent: Intent, p: Place)
    requires PaysAt(ledger, intent, p)
    ensures Fulfils(ledger, intent, ledger[p.tx].hash)
  {
    hide MemoMatches, PaymentMatches;
    assert Carries(ledger[p.tx], intent, ledger[p.tx].hash);
  }

  /** While the destination has at most `limit` records, the scan succeeds iff some transaction of the
      ledger fulfils the intent. */
  lemma UncroppedScanDecides(ledger: Ledger, intent: Intent, limit: nat)
    requires WellFormedLedger(ledger)
    requires |AccountRecords(ledger, intent.network, intent.destination)| <= limit
    ensures Scan(ledger, intent, RecentPage(ledger, intent.network, intent.destination, limit)).Valid? <==>
              exists txHash :: Fulfils(ledger, intent, txHash)
  {
    hide Fulfils, Shown, Newer, PaymentMatches, MemoMatches, Scan;
    ScanFindsIff(ledger, intent, limit);
    if txHash :| Fulfils(ledger, intent, txHash) {
      var p := FulfilledAt(ledger, intent, txHash);
      var at := RecordsInOrder(ledger, intent.network, intent.destination);
      var k :| 0 <= k < |at| && at[k] == p;
      PositionIsNewer(ledger, intent.network, intent.destination,
                      AccountRecords(ledger, intent.network, intent.destination), at, k);
      assert Ahead(ledger, intent, p) < limit;
    }
    if p :| LatestPayment(ledger, intent, p) {
      PaysAtFulfils(ledger, intent, p);
    }
  }

  /** Scan and lookup agree on a hash the scan found iff the lookup's page reaches a matching payment;
      in particular they agree whenever the page holds all of the transaction's records. */
  lemma ScanAndLookupAgree(ledger: Ledger, pageSize: nat, intent: Intent, page: seq<Operation>)
    requires WellFormedLedger(ledger) && PageOf(ledger, intent.network, page)
    ensures var r := Scan(ledger, intent, page);
      r.Valid? ==>
        var tx := Lookup(ledger, intent.network, r.txHash);
        && tx.Some?
        && (VerifyByHash(ledger, pageSize, intent, r.txHash).Valid?
            <==> FirstMatch(intent, FirstPage(tx.value, pageSize)).Some?)
        && (|tx.value.operations| <= pageSize ==> VerifyByHash(ledger, pageSize, intent, r.txHash).Valid?)
  {
    ScanSound(ledger, intent, page);
    var r := Scan(ledger, intent, page);
    if r.Valid? {
      LookupAcceptsIff(ledger, pageSize, intent, r.txHash);
      var tx :| tx in ledger && Carries(tx, intent, r.txHash);
      LookupFinds(ledger, tx);
    }
  }
}
