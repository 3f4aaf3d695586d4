/** Concrete interleavings that show why some guarantees are stated for serial runs only. */
module Races {
  import opened Wrappers
  import opened Decimals
  import opened Doubles
  import opened Money
  import opened Assets
  import opened Intents
  import opened Verifier
  import opened Lifecycle
  import opened Schedules

  /** The system once its only request has got to q. */
  function Alone(q: Process): System { START.(processes := [q]) }

  lemma FindsNothing(c: Config, q: CreateRequest)
    requires ValidRequest(q) && q.kind == PAY
    ensures Step(c, START, Arrive(FindKey(q))) == Alone(FindKey(q))
    ensures Step(c, Alone(FindKey(q)), Advance(0, Proceed)) == Alone(InsertRow(q, c.ttl))
  {
    assert Alone(FindKey(q)).processes[0 := InsertRow(q, c.ttl)] == [InsertRow(q, c.ttl)];
  }

  /** The system after a row was created; its event is due, or out. */
  function Inserting(q: CreateRequest, row: Intent): System {
    System(map[row.id := row], [], [], 0, false,
           [Emit(Event(q.consumer, CREATED, row), Done(Created(q.consumer, q.memo, row.id)))], map[row.id := row], {})
  }

  function CreatedAlone(q: CreateRequest, row: Intent): System {
    System(map[row.id := row], [Event(q.consumer, CREATED, row)], [], 0, false,
           [Done(Created(q.consumer, q.memo, row.id))], map[row.id := row], {})
  }

  lemma InsertsRow(c: Config, q: CreateRequest, id: string)
    ensures var row := NewRow(q, id, 0, c.ttl);
      Step(c, Alone(InsertRow(q, c.ttl)), Advance(0, Fresh(id))) == Inserting(q, row)
  {
    var row := NewRow(q, id, 0, c.ttl);
    var t: Table := map[];
    var s := Alone(InsertRow(q, c.ttl));
    assert t[id := row] == map[id := row];
    assert Inserted(s, q, c.ttl, id) == Effect(map[id := row], map[id := row], {}, Inserting(q, row).processes[0]);
    assert s.processes[0 := Inserting(q, row).processes[0]] == Inserting(q, row).processes;
  }

  lemma EmitsCreated(c: Config, q: CreateRequest, row: Intent)
    ensures Step(c, Inserting(q, row), Advance(0, Proceed)) == CreatedAlone(q, row)
  {
    assert Inserting(q, row).processes[0 := CreatedAlone(q, row).processes[0]] == CreatedAlone(q, row).processes;
  }

  /** A run that creates one pay intent. */
  lemma CreatePay(c: Config, q: CreateRequest, id: string) returns (actions: seq<Action>, row: Intent)
    requires ValidRequest(q) && q.kind == PAY
    ensures row == NewRow(q, id, 0, c.ttl)
    ensures Run(c, actions) == CreatedAlone(q, row)
  {
    hide Step;
    row := NewRow(q, id, 0, c.ttl);
    FindsNothing(c, q);
    InsertsRow(c, q, id);
    EmitsCreated(c, q, row);
    Append(c, [], Arrive(FindKey(q)));
    actions := [] + [Arrive(FindKey(q))];
    Append(c, actions, Advance(0, Proceed));
    actions := actions + [Advance(0, Proceed)];
    Append(c, actions, Advance(0, Fresh(id)));
    actions := actions + [Advance(0, Fresh(id))];
    Append(c, actions, Advance(0, Proceed));
    actions := actions + [Advance(0, Proceed)];
  }

  /** A payment made to the letter of the intent. */
  function Payment(row: Intent, txHash: string): Transaction {
    Transaction(row.network, txHash, true, Some("id"), Some(row.memo), [
      Operation("payment", txHash, "payer", row.destination,
                if row.asset.code == "native" then "native" else "credit",
                Some(row.asset.code), row.asset.issuer,
                if row.amount.Some? then row.amount.value else "1")])
  }

  lemma PaymentFits(row: Intent, txHash: string)
    requires WellFormedRow(row)
    ensures var tx := Payment(row, txHash);
      && PaymentMatches(row, tx.operations[0]) && MemoMatches(row, tx.memoType, tx.memo)
      && WellFormedLedger([tx])
  {
    if row.amount.Some? {
      assert NumberOf(row.amount.value) != NaN;
    }
  }

  /** The intent is paid and past its lifetime, and the observer's cycle has got to q. */
  function Late(c: Config, q: CreateRequest, row: Intent, txHash: string, observer: Process): System {
    CreatedAlone(q, row).(
      ledger := [Payment(row, txHash)], clock := c.ttl + 1, running := true,
      processes := [Done(Created(q.consumer, q.memo, row.id)), observer])
  }

  lemma TimeRunsOut(c: Config, q: CreateRequest, row: Intent, txHash: string)
    requires WellFormedRow(row) && c.ttl >= 0
    ensures var paid := CreatedAlone(q, row).(ledger := [Payment(row, txHash)]);
      && Step(c, CreatedAlone(q, row), LedgerGrows(Payment(row, txHash))) == paid
      && Step(c, Step(c, paid, TimePasses(c.ttl + 1)), TimerFires) == Late(c, q, row, txHash, QueryOverdue)
  {
    hide WellFormedRow, MemoMatches;
    PaymentFits(row, txHash);
    assert [] + [Payment(row, txHash)] == [Payment(row, txHash)];
  }

  lemma ReadsOverdue(c: Config, q: CreateRequest, row: Intent, txHash: string)
    requires Overdue(row, c.ttl + 1) && c.batchSize >= 1
    ensures Step(c, Late(c, q, row, txHash, QueryOverdue), Advance(1, Batch([row.id])))
        == Late(c, q, row, txHash, WriteExpired([row]))
  {
    var s := Late(c, q, row, txHash, QueryOverdue);
    assert OverdueIds(s.table, s.clock) == {row.id};
    assert AnyBatch(s.table, OverdueIds(s.table, s.clock), c.batchSize, [row.id]);
    assert Rows(s.table, [row.id]) == [row];
    assert s.processes[1 := WriteExpired([row])] == Late(c, q, row, txHash, WriteExpired([row])).processes;
  }

  /** The state after the observer has read an overdue intent, just before it marks it expired. */
  lemma ReadOverdue(c: Config, q: CreateRequest, id: string, txHash: string) returns (actions: seq<Action>, row: Intent)
    requires ValidRequest(q) && q.kind == PAY && c.ttl >= 0 && c.batchSize >= 1
    ensures row == NewRow(q, id, 0, c.ttl)
    ensures Run(c, actions) == Late(c, q, row, txHash, WriteExpired([row]))
  {
    hide Step, CreatedAlone, Late;
    actions, row := CreatePay(c, q, id);
    TimeRunsOut(c, q, row, txHash);
    ReadsOverdue(c, q, row, txHash);
    Append(c, actions, LedgerGrows(Payment(row, txHash)));
    actions := actions + [LedgerGrows(Payment(row, txHash))];
    Append(c, actions, TimePasses(c.ttl + 1));
    actions := actions + [TimePasses(c.ttl + 1)];
    Append(c, actions, TimerFires);
    actions := actions + [TimerFires];
    Append(c, actions, Advance(1, Batch([id])));
    actions := actions + [Advance(1, Batch([id]))];
  }

  ghost predicate Ready(c: Config, s: System, row: Intent, txHash: string) {
    && s.table == map[row.id := row] && s.ledger == [Payment(row, txHash)]
    && WellFormedRow(row) && row.status == PENDING && row.txHash == None && row.source == None && c.pageSize >= 1
  }

  /** A validate request arrives and reads the row. */
  lemma ValidateStarts(c: Config, actions: seq<Action>, row: Intent, txHash: string) returns (more: seq<Action>)
    requires Ready(c, Run(c, actions), row, txHash)
    ensures actions < more
    ensures var s := Run(c, actions);
      Run(c, more) == With(s, FetchTransaction(row, txHash, Api(row.consumer)))
  {
    var s := Run(c, actions);
    var arrive := Arrive(LoadIntent(row.consumer, row.id, txHash));
    Append(c, actions, arrive);
    more := actions + [arrive];
    Append(c, more, Advance(|s.processes|, Proceed));
    more := more + [Advance(|s.processes|, Proceed)];
  }

  /** s with one more process. */
  function With(s: System, q: Process): System { s.(processes := s.processes + [q]) }

  lemma StepLast(c: Config, s: System, q: Process)
    requires Verifies(q) && (q.FetchOwner? ==> q.page != [])
    ensures Step(c, With(s, q), Advance(|s.processes|, Proceed)).processes == s.processes + [VerifyMove(c, s, q)]
    ensures VerifyMove(c, s, q) != Done(CycleEnded) ==>
              Step(c, With(s, q), Advance(|s.processes|, Proceed)) == With(s, VerifyMove(c, s, q))
  {
    assert VerifyMove(c, With(s, q), q) == VerifyMove(c, s, q);
  }

  /** It fetches the transaction, its payments and the row's source. */
  lemma ValidateVerifies(c: Config, s: System, actions: seq<Action>, row: Intent, txHash: string)
    returns (more: seq<Action>)
    requires Ready(c, s, row, txHash)
    requires Run(c, actions) == With(s, FetchTransaction(row, txHash, Api(row.consumer)))
    ensures actions < more
    ensures Run(c, more) == With(s, WriteSettled(row, txHash, Some("payer"), Api(row.consumer)))
  {
    var tx := Payment(row, txHash);
    var api := Api(row.consumer);
    var step := Advance(|s.processes|, Proceed);
    VerifyMoves(c, s, row, txHash);
    StepLast(c, s, FetchTransaction(row, txHash, api));
    StepLast(c, s, FetchPayments(row, tx, api));
    StepLast(c, s, ReadSource(row, txHash, "payer", api));
    Append(c, actions, step);
    Append(c, actions + [step], step);
    Append(c, actions + [step] + [step], step);
    more := actions + [step] + [step] + [step];
  }

  lemma VerifyMoves(c: Config, s: System, row: Intent, txHash: string)
    requires Ready(c, s, row, txHash)
    ensures var tx, api := Payment(row, txHash), Api(row.consumer);
      && VerifyMove(c, s, FetchTransaction(row, txHash, api)) == FetchPayments(row, tx, api)
      && VerifyMove(c, s, FetchPayments(row, tx, api)) == ReadSource(row, txHash, "payer", api)
      && VerifyMove(c, s, ReadSource(row, txHash, "payer", api)) == WriteSettled(row, txHash, Some("payer"), api)
  {
    var tx := Payment(row, txHash);
    PaymentFits(row, txHash);
    assert Lookup([tx], row.network, txHash) == Some(tx);
    assert FirstPage(tx, c.pageSize) == tx.operations;
  }

  /** It settles the row and emits the event. */
  lemma ValidateSettles(c: Config, s: System, actions: seq<Action>, row: Intent, txHash: string)
    returns (more: seq<Action>)
    requires Ready(c, s, row, txHash)
    requires Run(c, actions) == With(s, WriteSettled(row, txHash, Some("payer"), Api(row.consumer)))
    ensures actions < more
    ensures Run(c, more) == AfterPayment(s, row, txHash)
  {
    var step := Advance(|s.processes|, Proceed);
    Append(c, actions, step);
    Append(c, actions + [step], step);
    more := actions + [step] + [step];
    SettlingSteps(c, s, row, txHash);
  }

  function AfterPayment(s: System, row: Intent, txHash: string): System {
    var settled := Settled(row, txHash, Some("payer"));
    s.(table := map[row.id := settled], patched := s.patched - {row.id},
       events := s.events + [Event(row.consumer, SETTLED, settled)],
       processes := s.processes + [Done(Outcome(true, SUCCEEDED))])
  }

  lemma SettlingSteps(c: Config, s: System, row: Intent, txHash: string)
    requires Ready(c, s, row, txHash)
    ensures var q := WriteSettled(row, txHash, Some("payer"), Api(row.consumer));
      Step(c, Step(c, With(s, q), Advance(|s.processes|, Proceed)), Advance(|s.processes|, Proceed))
          == AfterPayment(s, row, txHash)
  {
    var q := WriteSettled(row, txHash, Some("payer"), Api(row.consumer));
    SettlingEffect(s, row, txHash);
    EmitLast(c, s.(table := map[row.id := Settled(row, txHash, Some("payer"))], patched := s.patched - {row.id}),
             Event(row.consumer, SETTLED, Settled(row, txHash, Some("payer"))), Done(Outcome(true, SUCCEEDED)));
    assert Step(c, With(s, q), Advance(|s.processes|, Proceed)).processes
        == s.processes + [Updating(With(s, q), q).next];
  }

  lemma SettlingEffect(s: System, row: Intent, txHash: string)
    requires s.table == map[row.id := row]
    ensures var q, settled := WriteSettled(row, txHash, Some("payer"), Api(row.consumer)),
        Settled(row, txHash, Some("payer"));
      Updating(With(s, q), q) == Effect(map[row.id := settled], s.born, s.patched - {row.id},
                                        Emit(Event(row.consumer, SETTLED, settled), Done(Outcome(true, SUCCEEDED))))
  {
    var t: Table := map[row.id := row];
    var settled := Settled(row, txHash, Some("payer"));
    assert t[row.id := settled] == map[row.id := settled];
  }

  lemma EmitLast(c: Config, s: System, event: Event, next: Process)
    requires next != Done(CycleEnded)
    ensures Step(c, With(s, Emit(event, next)), Advance(|s.processes|, Proceed))
        == With(s.(events := s.events + [event]), next)
  {
  }

  /** SUCCEEDED is not absorbing when requests interleave: for every pay intent there is a run in which
      validate settles the row, its event is out, and the observer then marks the row expired because
      it read it earlier. */
  lemma ExpiryOverwritesPayment(c: Config, q: CreateRequest, id: string, txHash: string)
    returns (paid: seq<Action>, lost: seq<Action>)
    requires ValidRequest(q) && q.kind == PAY && q.source == None
    requires c.ttl >= 0 && c.batchSize >= 1 && c.pageSize >= 1
    ensures paid < lost
    ensures id in Run(c, paid).table && Run(c, paid).table[id].status == SUCCEEDED
    ensures id in Run(c, lost).table && Run(c, lost).table[id].status == EXPIRED
    ensures Run(c, lost).patched == {}
  {
    hide Step, Late;
    var actions, row := ReadOverdue(c, q, id, txHash);
    var s := Run(c, actions);
    StillReady(c, q, row, txHash);
    paid := ValidateStarts(c, actions, row, txHash);
    paid := ValidateVerifies(c, s, paid, row, txHash);
    paid := ValidateSettles(c, s, paid, row, txHash);
    Append(c, paid, Advance(1, Proceed));
    lost := paid + [Advance(1, Proceed)];
    ExpiresPaid(c, s, row, txHash);
  }

  lemma StillReady(c: Config, q: CreateRequest, row: Intent, txHash: string)
    requires WellFormedRow(row) && row.status == PENDING && row.txHash == None && row.source == None && c.pageSize >= 1
    ensures var s := Late(c, q, row, txHash, WriteExpired([row]));
      Ready(c, s, row, txHash) && |s.processes| == 2 && s.processes[1] == WriteExpired([row]) && s.patched == {}
  {
  }

  lemma ExpiresPaid(c: Config, s: System, row: Intent, txHash: string)
    requires |s.processes| == 2 && s.processes[1] == WriteExpired([row]) && s.patched == {}
    ensures var s' := Step(c, AfterPayment(s, row, txHash), Advance(1, Proceed));
      row.id in s'.table && s'.table[row.id].status == EXPIRED && s'.patched == {}
  {
  }

  /** A PATCH request arrives, finds the row and writes it; its event is due. */
  lemma PatchWrites(c: Config, actions: seq<Action>, row: Intent, patch: Patch) returns (more: seq<Action>)
    requires var s := Run(c, actions); s.table == map[row.id := row]
    ensures var s, s', updated := Run(c, actions), Run(c, more), Patched(row, patch);
      && actions < more && s'.table == map[row.id := updated] && s'.events == s.events
      && s'.processes == s.processes + [Emit(Event(row.consumer, PatchEvent(patch), updated), Done(Updated(row.id)))]
      && s'.ledger == s.ledger && (patch.status == Some(SUCCEEDED) ==> row.id in s'.patched)
  {
    var s := Run(c, actions);
    var p := |s.processes|;
    var q := AuthorizePatch(row.consumer, row.id, patch);
    Append(c, actions, Arrive(q));
    Append(c, actions + [Arrive(q)], Advance(p, Proceed));
    Append(c, actions + [Arrive(q)] + [Advance(p, Proceed)], Advance(p, Proceed));
    more := actions + [Arrive(q)] + [Advance(p, Proceed)] + [Advance(p, Proceed)];
    var s1 := Run(c, actions + [Arrive(q)]);
    ReadStep(c, s1, p, Proceed);
    var s2 := Step(c, s1, Advance(p, Proceed));
    assert s2.processes == s.processes + [WritePatch(row.consumer, row.id, patch)];
    PatchEffect(s2, row, patch);
    WriteStep(c, s2, p, Proceed);
    assert Run(c, more).processes == s.processes + [Updating(s2, s2.processes[p]).next];
  }

  lemma PatchEffect(s: System, row: Intent, patch: Patch)
    requires s.table == map[row.id := row]
    ensures var q, updated := WritePatch(row.consumer, row.id, patch), Patched(row, patch);
      Updating(s, q) == Effect(map[row.id := updated], s.born, Marked(q, updated, s.patched),
                               Emit(Event(row.consumer, PatchEvent(patch), updated), Done(Updated(row.id))))
  {
    var t: Table := map[row.id := row];
    assert t[row.id := Patched(row, patch)] == map[row.id := Patched(row, patch)];
  }

  /** Events may leave in another order than their writes: two metadata PATCHes of one row after which,
      with all requests done, replaying the log yields another row than the table holds. */
  lemma EventsOutOfOrder(c: Config, q: CreateRequest, id: string, first: string, second: string)
    returns (actions: seq<Action>)
    requires ValidRequest(q) && q.kind == PAY && first != second
    ensures var s := Run(c, actions);
      && (forall p | 0 <= p < |s.processes| :: s.processes[p].Done?)
      && id in s.table && s.table[id].reference == Some(second)
      && id in Replay(s.events) && Replay(s.events)[id].reference == Some(first)
  {
    var created, row := CreatePay(c, q, id);
    var one, two := Patch(None, None, Some(Some(first))), Patch(None, None, Some(Some(second)));
    var a := PatchWrites(c, created, row, one);
    var b := PatchWrites(c, a, Patched(row, one), two);
    var s := Run(c, b);
    EmitStep(c, s, 2);
    Append(c, b, Advance(2, Proceed));
    var s1 := Run(c, b + [Advance(2, Proceed)]);
    EmitStep(c, s1, 1);
    Append(c, b + [Advance(2, Proceed)], Advance(1, Proceed));
    actions := b + [Advance(2, Proceed)] + [Advance(1, Proceed)];
    var last := Run(c, actions).events;
    ReplayAppend(s1.events, last[|last| - 1]);
    assert last == s1.events + [last[|last| - 1]];
  }

  // ── An empty fallback ──────────────────────────────────────────────────────

  /** Two create calls of one key in flight, before and after the first has inserted its row. */
  function Both(first: Process, second: Process): System { START.(processes := [first, second]) }

  function OneRow(row: Intent, processes: seq<Process>): System {
    System(map[row.id := row], [], [], 0, false, processes, map[row.id := row], {})
  }

  lemma BothLook(c: Config, q: CreateRequest)
    requires ValidRequest(q) && q.kind == PAY
    ensures Step(c, Alone(FindKey(q)), Arrive(FindKey(q))) == Both(FindKey(q), FindKey(q))
    ensures Step(c, Both(FindKey(q), FindKey(q)), Advance(0, Proceed)) == Both(InsertRow(q, c.ttl), FindKey(q))
    ensures Step(c, Both(InsertRow(q, c.ttl), FindKey(q)), Advance(1, Proceed))
        == Both(InsertRow(q, c.ttl), InsertRow(q, c.ttl))
  {
    assert [FindKey(q), FindKey(q)][0 := InsertRow(q, c.ttl)] == [InsertRow(q, c.ttl), FindKey(q)];
    assert [InsertRow(q, c.ttl), FindKey(q)][1 := InsertRow(q, c.ttl)] == [InsertRow(q, c.ttl), InsertRow(q, c.ttl)];
  }

  function OwesCreated(q: CreateRequest, row: Intent): Process {
    Emit(Event(q.consumer, CREATED, row), Done(Created(q.consumer, q.memo, row.id)))
  }

  lemma OneInserts(c: Config, q: CreateRequest, id: string, other: string)
    requires id != other
    ensures var row, insert := NewRow(q, id, 0, c.ttl), InsertRow(q, c.ttl);
      && Step(c, Both(insert, insert), Advance(0, Fresh(id))) == OneRow(row, [OwesCreated(q, row), insert])
      && Step(c, OneRow(row, [OwesCreated(q, row), insert]), Advance(1, Fresh(other)))
           == OneRow(row, [OwesCreated(q, row), RefetchKey(q)])
  {
    var row, insert := NewRow(q, id, 0, c.ttl), InsertRow(q, c.ttl);
    var t: Table := map[];
    assert t[id := row] == map[id := row];
    assert HasKey(OneRow(row, []).table[id], q.consumer, q.memo);
    assert Inserted(Both(insert, insert), q, c.ttl, id)
        == Effect(map[id := row], map[id := row], {}, OwesCreated(q, row));
    assert [insert, insert][0 := OwesCreated(q, row)] == [OwesCreated(q, row), insert];
    assert [OwesCreated(q, row), insert][1 := RefetchKey(q)] == [OwesCreated(q, row), RefetchKey(q)];
  }

  function Waiting(q: CreateRequest, row: Intent, removal: Process): System {
    OneRow(row, [OwesCreated(q, row), RefetchKey(q), removal])
  }

  lemma RemovalIsAuthorized(c: Config, q: CreateRequest, row: Intent)
    requires row.consumer == q.consumer && row.status == PENDING
    ensures var authorize, check, delete := AuthorizeRemoval(q.consumer, row.id), CheckRemoval(q.consumer, row.id),
        DeleteRow(q.consumer, row.id);
      && Step(c, OneRow(row, [OwesCreated(q, row), RefetchKey(q)]), Arrive(authorize)) == Waiting(q, row, authorize)
      && Step(c, Waiting(q, row, authorize), Advance(2, Proceed)) == Waiting(q, row, check)
      && Step(c, Waiting(q, row, check), Advance(2, Proceed)) == Waiting(q, row, delete)
  {
    hide WriteMove, VerifyMove;
    var authorize, check, delete := AuthorizeRemoval(q.consumer, row.id), CheckRemoval(q.consumer, row.id),
        DeleteRow(q.consumer, row.id);
    assert [OwesCreated(q, row), RefetchKey(q)] + [authorize] == Waiting(q, row, authorize).processes;
    assert Waiting(q, row, authorize).processes[2 := check] == Waiting(q, row, check).processes;
    assert Waiting(q, row, check).processes[2 := delete] == Waiting(q, row, delete).processes;
  }

  lemma RowIsRemoved(c: Config, q: CreateRequest, row: Intent)
    ensures var s := Step(c, Waiting(q, row, DeleteRow(q.consumer, row.id)), Advance(2, Proceed));
      s.table == map[] && |s.processes| == 3 && s.processes[1] == RefetchKey(q)
  {
    hide ReadMove;
  }

  lemma RefetchesNothing(c: Config, s: System, q: CreateRequest)
    requires s.table == map[] && |s.processes| == 3 && s.processes[1] == RefetchKey(q)
    ensures Step(c, s, Advance(1, Proceed)).processes[1] == Done(Failed)
  {
  }

  /** The fallback after a unique violation can come back empty: two pay requests of one key both find it
      free, one inserts, the other's insert violates the constraint, the row is removed, and the second
      lookup finds nothing. */
  lemma FallbackComesBackEmpty(c: Config, q: CreateRequest, id: string, other: string) returns (waiting: seq<Action>)
    requires ValidRequest(q) && q.kind == PAY && id != other
    ensures var s := Run(c, waiting);
      |s.processes| == 3 && s.processes[1] == RefetchKey(q) && !KeyTaken(s.table, q.consumer, q.memo)
    ensures Run(c, waiting + [Advance(1, Proceed)]).processes[1] == Done(Failed)
  {
    hide Step;
    var row := NewRow(q, id, 0, c.ttl);
    FindsNothing(c, q);
    BothLook(c, q);
    OneInserts(c, q, id, other);
    RemovalIsAuthorized(c, q, row);
    RowIsRemoved(c, q, row);
    Append(c, [], Arrive(FindKey(q)));
    waiting := [] + [Arrive(FindKey(q))];
    Append(c, waiting, Arrive(FindKey(q)));
    waiting := waiting + [Arrive(FindKey(q))];
    Append(c, waiting, Advance(0, Proceed));
    waiting := waiting + [Advance(0, Proceed)];
    Append(c, waiting, Advance(1, Proceed));
    waiting := waiting + [Advance(1, Proceed)];
    Append(c, waiting, Advance(0, Fresh(id)));
    waiting := waiting + [Advance(0, Fresh(id))];
    Append(c, waiting, Advance(1, Fresh(other)));
    waiting := waiting + [Advance(1, Fresh(other))];
    Append(c, waiting, Arrive(AuthorizeRemoval(q.consumer, id)));
    waiting := waiting + [Arrive(AuthorizeRemoval(q.consumer, id))];
    Append(c, waiting, Advance(2, Proceed));
    waiting := waiting + [Advance(2, Proceed)];
    Append(c, waiting, Advance(2, Proceed));
    waiting := waiting + [Advance(2, Proceed)];
    Append(c, waiting, Advance(2, Proceed));
    waiting := waiting + [Advance(2, Proceed)];
    RefetchesNothing(c, Run(c, waiting), q);
    Append(c, waiting, Advance(1, Proceed));
  }
}
