/** Whose rows a request can touch, and to whom its events are addressed, in every interleaving. */
module Ownership {
  import opened Wrappers
  import opened Intents
  import opened Verifier
  import opened Lifecycle
  import opened Settlement

  /** The row was created for this consumer. */
  ghost predicate BelongsTo(born: map<string, Intent>, id: string, consumer: string) {
    id in born && born[id].consumer == consumer
  }

  /** A request settles its caller's rows only. */
  predicate ForOwner(intent: Intent, caller: Caller) { caller.Api? ==> caller.consumer == intent.consumer }

  ghost predicate Addressed(born: map<string, Intent>, event: Event) {
    event.row.consumer == event.consumer && BelongsTo(born, event.row.id, event.consumer)
  }

  /** A process that is past its ownership check works on a row of its caller, and its event is for the owner. */
  ghost predicate Rightful(born: map<string, Intent>, q: Process) {
    match q
    case WritePatch(consumer, id, _) => BelongsTo(born, id, consumer)
    case CheckRemoval(consumer, id) => BelongsTo(born, id, consumer)
    case DeleteRow(consumer, id) => BelongsTo(born, id, consumer)
    case FetchTransaction(intent, _, caller) => ForOwner(intent, caller)
    case FetchPayments(intent, _, caller) => ForOwner(intent, caller)
    case FetchPage(intent, caller) => ForOwner(intent, caller)
    case FetchOwner(intent, _, caller) => ForOwner(intent, caller)
    case ReadSource(intent, _, _, caller) => ForOwner(intent, caller)
    case WriteSettled(intent, _, _, caller) => ForOwner(intent, caller)
    case WriteRejected(intent, _, consumer) => intent.consumer == consumer
    case Emit(event, next) => Addressed(born, event) && Rightful(born, next) && !next.Emit?
    case _ => true
  }

  ghost predicate Isolated(s: System) {
    && (forall i | 0 <= i < |s.events| :: Addressed(s.born, s.events[i]))
    && forall p | 0 <= p < |s.processes| :: Rightful(s.born, s.processes[p])
  }

  lemma {:induction false} RightfulStable(born: map<string, Intent>, more: map<string, Intent>, q: Process)
    requires forall id | id in born :: id in more && more[id] == born[id]
    requires Rightful(born, q)
    ensures Rightful(more, q)
  {
    if q.Emit? {
      RightfulStable(born, more, q.next);
    }
  }

  // ── Steps that read ────────────────────────────────────────────────────────

  lemma {:induction false} SeekMatchRightful(born: map<string, Intent>, intent: Intent, page: seq<Operation>,
                                             caller: Caller)
    requires ForOwner(intent, caller)
    ensures Rightful(born, SeekMatch(intent, page, caller)) && !SeekMatch(intent, page, caller).Emit?
  {
    if page != [] {
      SeekMatchRightful(born, intent, page[1..], caller);
    }
  }

  lemma FailureRightful(born: map<string, Intent>, q: Process)
    requires !q.Emit?
    ensures Rightful(born, AfterFailure(q)) && !AfterFailure(q).Emit?
  {
  }

  lemma AfterInvalidRightful(born: map<string, Intent>, intent: Intent, txHash: string, reason: Reason, caller: Caller)
    requires ForOwner(intent, caller)
    ensures var next := AfterInvalid(intent, txHash, reason, caller); Rightful(born, next) && !next.Emit?
  {
  }

  lemma VerifyRightful(c: Config, s: System, q: Process)
    requires Rightful(s.born, q) && Verifies(q) && (q.FetchOwner? ==> q.page != [])
    ensures Rightful(s.born, VerifyMove(c, s, q)) && !VerifyMove(c, s, q).Emit?
  {
    hide SeekMatch, AfterInvalid, AfterFailure, Lookup, FirstMatch, FirstPage, MemoMatches, RecentPage, PaymentMatches;
    hide SourceToSet, ForOwner;
    match q
    case FetchTransaction(intent, txHash, caller) =>
      AfterInvalidRightful(s.born, intent, txHash, NOT_FOUND, caller);
      AfterInvalidRightful(s.born, intent, txHash, FAILED_ON_CHAIN, caller);
      AfterInvalidRightful(s.born, intent, txHash, MEMO_MISMATCH, caller);
    case FetchPayments(intent, tx, caller) => AfterInvalidRightful(s.born, intent, tx.hash, NO_PAYMENT, caller);
    case FetchPage(intent, caller) =>
      SeekMatchRightful(s.born, intent, RecentPage(s.ledger, intent.network, intent.destination, c.scanLimit), caller);
    case FetchOwner(intent, page, caller) =>
      FailureRightful(s.born, q);
      AfterInvalidRightful(s.born, intent, "", NOT_YET, caller);
      SeekMatchRightful(s.born, intent, page[1..], caller);
    case ReadSource(_, _, _, _) =>
  }

  lemma RequestRightful(c: Config, s: System, q: Process)
    requires RowsKnown(s) && Keyed(s.table) && Rightful(s.born, q) && !q.Emit? && !Verifies(q)
    ensures Rightful(s.born, RequestMove(c, s, q)) && !RequestMove(c, s, q).Emit?
  {
    hide FindByMemo;
    forall id | id in s.table ensures BelongsTo(s.born, id, s.table[id].consumer) {
      assert Known(s.born, s.table[id]);
    }
  }

  lemma ReadRightful(c: Config, s: System, q: Process, choice: Choice)
    requires Inv(s) && Rightful(s.born, q) && Enabled(c, s, q, choice) && !Writes(q) && !choice.Fail?
    ensures Rightful(s.born, ReadMove(c, s, q, choice)) && !ReadMove(c, s, q, choice).Emit?
  {
    hide VerifyMove, RequestMove, OldestBatch, AnyBatch, WellFormedRow, Sound;
    if Verifies(q) {
      VerifyRightful(c, s, q);
    } else if !q.Emit? && !q.QueryOverdue? && !q.QueryPending? {
      RequestRightful(c, s, q);
    }
  }

  // ── Steps that write ───────────────────────────────────────────────────────

  lemma AnnouncedToOwner(s: System, q: Process)
    requires Inv(s) && Sound(s.ledger, s.born, q) && Rightful(s.born, q) && Updates(q) && Target(q) in s.table
    ensures Addressed(s.born, Announcement(q, Rewritten(q, s.table[Target(q)])))
  {
    hide Fulfils, Backed, WellFormedRow, Consistent;
    KeyedTable(s, Target(q));
    assert Known(s.born, s.table[Target(q)]);
  }

  lemma UpdateRightful(s: System, q: Process)
    requires Inv(s) && Sound(s.ledger, s.born, q) && Rightful(s.born, q) && Updates(q)
    ensures Rightful(s.born, Updating(s, q).next)
  {
    hide Inv, Sound, Addressed, Rewritten, Announcement, Target, Marked, AfterFailure;
    FailureRightful(s.born, q);
    if Target(q) in s.table {
      AnnouncedToOwner(s, q);
      AfterUpdateRightful(s.born, q);
    }
  }

  lemma AfterUpdateRightful(born: map<string, Intent>, q: Process)
    requires Updates(q)
    ensures Rightful(born, AfterUpdate(q)) && !AfterUpdate(q).Emit?
  {
  }

  lemma InsertRightful(s: System, request: CreateRequest, expiresAt: int, id: string)
    ensures var e := Inserted(s, request, expiresAt, id); Rightful(e.born, e.next)
  {
    hide HashTaken, KeyTaken;
  }

  lemma DeleteRightful(s: System, q: Process)
    requires RowsKnown(s) && Keyed(s.table) && q.DeleteRow? && Rightful(s.born, q)
    ensures Rightful(s.born, Deleting(s, q).next) && Deleting(s, q).born == s.born
  {
    FailureRightful(s.born, q);
    if q.id in s.table {
      assert Known(s.born, s.table[q.id]);
    }
  }

  lemma WriteRightful(s: System, q: Process, choice: Choice)
    requires Inv(s) && Sound(s.ledger, s.born, q) && Rightful(s.born, q) && Writes(q)
    requires q.InsertRow? ==> choice.Fresh? && choice.id !in s.born
    ensures var e := WriteMove(s, q, choice); Rightful(e.born, e.next)
  {
    hide Updating, Deleting, Inserted, Rightful, Sound, Backed, WellFormedRow;
    if q.InsertRow? {
      InsertRightful(s, q.request, q.expiresAt, choice.id);
    } else if q.DeleteRow? {
      DeleteRightful(s, q);
    } else {
      UpdateRightful(s, q);
      UpdatingBears(s, q);
    }
  }

  lemma UpdatingBears(s: System, q: Process)
    requires Updates(q)
    ensures Updating(s, q).born == s.born
  {
  }

  lemma MoveRightful(c: Config, s: System, q: Process, choice: Choice)
    requires Inv(s) && Sound(s.ledger, s.born, q) && Rightful(s.born, q) && Enabled(c, s, q, choice)
    ensures var e := Move(c, s, q, choice); Rightful(e.born, e.next)
  {
    hide Inv, Sound, Rightful, WriteMove, ReadMove, AnyBatch, OldestBatch, AfterFailure;
    if choice.Fail? {
      FailureRightful(s.born, q);
    } else if Writes(q) {
      WriteRightful(s, q, choice);
    } else {
      ReadRightful(c, s, q, choice);
    }
  }

  // ── Whole runs ─────────────────────────────────────────────────────────────

  lemma EmitsAddressed(born: map<string, Intent>, q: Process)
    requires Rightful(born, q) && q.Emit?
    ensures Addressed(born, q.event)
  {
  }

  lemma AddressedStable(born: map<string, Intent>, more: map<string, Intent>, event: Event)
    requires forall id | id in born :: id in more && more[id] == born[id]
    requires Addressed(born, event)
    ensures Addressed(more, event)
  {
  }

  lemma AdvanceKeepsIsolated(c: Config, s: System, p: nat, choice: Choice)
    requires Inv(s) && Isolated(s) && p < |s.processes| && Enabled(c, s, s.processes[p], choice)
    ensures Isolated(Step(c, s, Advance(p, choice)))
  {
    hide Move, Enabled, Consistent, WellFormedLedger, Backed, RowsKnown, Rightful, Addressed, Sound;
    var q, s' := s.processes[p], Step(c, s, Advance(p, choice));
    MoveSound(c, s, q, choice);
    MoveRightful(c, s, q, choice);
    forall i | 0 <= i < |s'.events| ensures Addressed(s'.born, s'.events[i]) {
      if i < |s.events| {
        AddressedStable(s.born, s'.born, s.events[i]);
      } else {
        EmitsAddressed(s.born, q);
        AddressedStable(s.born, s'.born, q.event);
      }
    }
    forall r | 0 <= r < |s'.processes| ensures Rightful(s'.born, s'.processes[r]) {
      if r != p {
        RightfulStable(s.born, s'.born, s.processes[r]);
      }
    }
  }

  lemma ArrivesRightful(born: map<string, Intent>, q: Process)
    requires Arrival(q) || q.QueryOverdue?
    ensures Rightful(born, q)
  {
  }

  lemma StepKeepsIsolated(c: Config, s: System, action: Action)
    requires Inv(s) && Isolated(s)
    ensures Isolated(Step(c, s, action))
  {
    hide Inv, Move, Enabled, Rightful, Addressed, Arrival, WellFormedLedger;
    match action
    case Advance(p, choice) =>
      if p < |s.processes| && Enabled(c, s, s.processes[p], choice) {
        AdvanceKeepsIsolated(c, s, p, choice);
      }
    case Arrive(request) =>
      if Arrival(request) {
        ArrivesRightful(s.born, request);
      }
    case TimerFires => ArrivesRightful(s.born, QueryOverdue);
    case _ =>
  }

  lemma {:induction false} RunKeepsIsolated(c: Config, actions: seq<Action>)
    ensures Isolated(Run(c, actions))
  {
    hide Step, Isolated;
    if actions == [] {
      StartsIsolated();
    } else {
      RunKeepsInv(c, actions[..|actions| - 1]);
      RunKeepsIsolated(c, actions[..|actions| - 1]);
      StepKeepsIsolated(c, Run(c, actions[..|actions| - 1]), actions[|actions| - 1]);
    }
  }

  lemma StartsIsolated()
    ensures Isolated(START)
  {
  }

  // ── What it means ──────────────────────────────────────────────────────────

  /** Interleaved, every run: each event on the bus is addressed to the consumer whose row it carries, who is the
      one the row was created for. */
  lemma EventsReachOwners(c: Config, actions: seq<Action>, i: nat)
    requires i < |Run(c, actions).events|
    ensures var s := Run(c, actions); var event := s.events[i];
      && event.consumer == event.row.consumer
      && event.row.id in s.born && s.born[event.row.id].consumer == event.consumer
  {
    hide Run;
    RunKeepsIsolated(c, actions);
    assert Addressed(Run(c, actions).born, Run(c, actions).events[i]);
  }

  /** The consumer whose request a writing process carries out; None is the observer. */
  function Requester(q: Process): Option<string> {
    match q
    case InsertRow(request, _) => Some(request.consumer)
    case WritePatch(consumer, _, _) => Some(consumer)
    case DeleteRow(consumer, _) => Some(consumer)
    case WriteRejected(_, _, consumer) => Some(consumer)
    case WriteSettled(_, _, _, Api(consumer)) => Some(consumer)
    case _ => None
  }

  /** An update changes the row it is for, which is the requester's. */
  lemma UpdatesOwn(s: System, q: Process, id: string)
    requires Inv(s) && Sound(s.ledger, s.born, q) && Rightful(s.born, q) && Updates(q) && id in s.table
    requires var t := Updating(s, q).table; !(id in t && t[id] == s.table[id])
    ensures Requester(q).Some? ==> Requester(q).value == s.table[id].consumer
  {
    hide Inv, Sound, Rightful, Rewritten, Target, HashTaken, Marked, Announcement, AfterUpdate, AfterFailure, Requester;
    TargetIsOwn(s, q);
  }

  lemma TargetIsOwn(s: System, q: Process)
    requires Inv(s) && Sound(s.ledger, s.born, q) && Rightful(s.born, q) && Updates(q) && Target(q) in s.table
    ensures Requester(q).Some? ==> Requester(q).value == s.table[Target(q)].consumer
  {
    hide Backed, Consistent, WellFormedLedger, Fulfils;
    KeyedTable(s, Target(q));
    assert Known(s.born, s.table[Target(q)]);
  }

  lemma RemovesOwn(s: System, q: Process)
    requires Inv(s) && Rightful(s.born, q) && q.DeleteRow? && q.id in s.table
    ensures q.consumer == s.table[q.id].consumer
  {
    hide Backed, Consistent, WellFormedLedger, Sound;
    KeyedTable(s, q.id);
    assert Known(s.born, s.table[q.id]);
  }

  lemma InsertKeepsOthers(s: System, request: CreateRequest, expiresAt: int, id: string, other: string)
    requires other in s.table
    ensures var t := Inserted(s, request, expiresAt, id).table; other in t && t[other] == s.table[other]
  {
    hide HashTaken, KeyTaken;
  }

  lemma WritesOwn(s: System, q: Process, choice: Choice, id: string)
    requires Inv(s) && Sound(s.ledger, s.born, q) && Rightful(s.born, q) && Writes(q) && id in s.table
    requires q.InsertRow? ==> choice.Fresh? && choice.id !in s.born
    requires var t := WriteMove(s, q, choice).table; !(id in t && t[id] == s.table[id])
    ensures Requester(q).Some? ==> Requester(q).value == s.table[id].consumer
  {
    hide Inv, Sound, Rightful, Updating, Inserted;
    if q.InsertRow? {
      InsertKeepsOthers(s, q.request, q.expiresAt, choice.id, id);
    } else if q.DeleteRow? {
      if q.id == id {
        RemovesOwn(s, q);
      }
    } else {
      UpdatesOwn(s, q, id);
    }
  }

  /** Interleaved, every run: no step of a consumer's request changes or removes a row of another consumer. */
  lemma OnlyOwnersWrite(c: Config, actions: seq<Action>, action: Action, id: string)
    requires id in Run(c, actions).table
    requires var s, t := Run(c, actions), Step(c, Run(c, actions), action).table; !(id in t && t[id] == s.table[id])
    ensures var s := Run(c, actions);
      && action.Advance? && action.p < |s.processes|
      && var requester := Requester(s.processes[action.p]);
        requester == None || requester == Some(s.table[id].consumer)
  {
    hide Run, WriteMove, ReadMove, Rightful, Addressed, Consistent, RowsKnown, Backed, AnyBatch, OldestBatch;
    RunKeepsInv(c, actions);
    RunKeepsIsolated(c, actions);
    var s := Run(c, actions);
    var q := s.processes[action.p];
    assert Sound(s.ledger, s.born, q) && Rightful(s.born, q);
    if !action.choice.Fail? && Writes(q) {
      WritesOwn(s, q, action.choice, id);
    }
  }
}
