/** Idempotent creation: any number of createTx and createPay calls, in any interleaving. */
module Creation {
  import opened Wrappers
  import opened Intents
  import opened Verifier
  import opened Lifecycle
  import opened Settlement

  predicate Announcing(q: Process, id: string) {
    q.Emit? && q.event.kind == CREATED && q.event.row.id == id
  }

  /** How many processes are about to emit the CREATED event of a row. */
  function DueCount(ps: seq<Process>, id: string): nat {
    if ps == [] then 0
    else DueCount(ps[..|ps| - 1], id) + if Announcing(ps[|ps| - 1], id) then 1 else 0
  }

  /** How many CREATED events of a row have been emitted. */
  function CreatedCount(events: seq<Event>, id: string): nat {
    if events == [] then 0
    else CreatedCount(events[..|events| - 1], id)
         + if events[|events| - 1].kind == CREATED && events[|events| - 1].row.id == id then 1 else 0
  }

  lemma {:induction false} DueCountUpdate(ps: seq<Process>, p: nat, q: Process, id: string)
    requires p < |ps|
    ensures DueCount(ps[p := q], id) + (if Announcing(ps[p], id) then 1 else 0)
         == DueCount(ps, id) + (if Announcing(q, id) then 1 else 0)
  {
    var updated := ps[p := q];
    if p == |ps| - 1 {
      assert updated[..|ps| - 1] == ps[..|ps| - 1];
    } else {
      assert updated[..|ps| - 1] == ps[..|ps| - 1][p := q];
      DueCountUpdate(ps[..|ps| - 1], p, q, id);
    }
  }

  /** A create call knows a row of its key; so does one that must look the key up again. */
  ghost predicate Knows(born: map<string, Intent>, q: Process) {
    match q
    case Done(Created(consumer, memo, id)) => id in born && HasKey(born[id], consumer, memo)
    case RefetchKey(request) => exists id :: id in born && HasKey(born[id], request.consumer, request.memo)
    case Emit(event, next) =>
      !next.Emit? && Knows(born, next) && (event.kind == CREATED ==> event.row.id in born)
    case _ => true
  }

  /** Announcements are conserved: each row ever born is announced once, either already or by the one
      process that is about to. */
  ghost predicate Announced(s: System) {
    && (forall id :: CreatedCount(s.events, id) + DueCount(s.processes, id) == if id in s.born then 1 else 0)
    && forall p | 0 <= p < |s.processes| :: Knows(s.born, s.processes[p])
  }

  lemma {:induction false} KnowsStable(born: map<string, Intent>, more: map<string, Intent>, q: Process)
    requires forall id | id in born :: id in more && more[id] == born[id]
    requires Knows(born, q)
    ensures Knows(more, q)
  {
    match q
    case RefetchKey(request) =>
      var id :| id in born && HasKey(born[id], request.consumer, request.memo);
      assert id in more;
    case Emit(_, next) => KnowsStable(born, more, next);
    case _ =>
  }

  lemma {:induction false} SeekMatchKnows(born: map<string, Intent>, intent: Intent, page: seq<Operation>,
                                          caller: Caller)
    ensures Knows(born, SeekMatch(intent, page, caller)) && !SeekMatch(intent, page, caller).Emit?
  {
    if page != [] {
      SeekMatchKnows(born, intent, page[1..], caller);
    }
  }

  lemma ReadKnows(c: Config, s: System, q: Process, choice: Choice)
    requires Inv(s) && Knows(s.born, q) && Enabled(c, s, q, choice) && !Writes(q) && !choice.Fail?
    ensures Knows(s.born, ReadMove(c, s, q, choice)) && !ReadMove(c, s, q, choice).Emit?
  {
    hide SeekMatch, Inv, Lookup, FirstMatch, MemoMatches, OldestBatch, AnyBatch;
    if q.FetchPage? {
      SeekMatchKnows(s.born, q.intent, RecentPage(s.ledger, q.intent.network, q.intent.destination, c.scanLimit),
                     q.caller);
    } else if q.FetchOwner? {
      SeekMatchKnows(s.born, q.intent, q.page[1..], q.caller);
    } else if q.FindKey? || q.RefetchKey? {
      FoundIsBorn(s, q.request.consumer, q.request.memo);
    }
  }

  lemma FoundIsBorn(s: System, consumer: string, memo: string)
    requires Inv(s)
    ensures var r := FindByMemo(s.table, consumer, memo);
      r.Some? ==> r.value.id in s.born && HasKey(s.born[r.value.id], consumer, memo)
  {
    var r := FindByMemo(s.table, consumer, memo);
    if r.Some? {
      var id :| id in s.table && s.table[id] == r.value;
      assert Known(s.born, s.table[id]);
    }
  }

  /** The insert announces exactly the row it bears; a violation can only mean the key is taken. */
  lemma InsertKnows(s: System, request: CreateRequest, expiresAt: int, id: string)
    requires Inv(s) && id !in s.born
    ensures var e := Inserted(s, request, expiresAt, id);
      && Knows(e.born, e.next)
      && (forall other :: Announcing(e.next, other) <==> other in e.born && other !in s.born)
  {
    var row := NewRow(request, id, s.clock, expiresAt);
    assert id in s.table ==> Known(s.born, s.table[id]);
    if Insert(s.table, row).None? {
      var taken :| taken in s.table && HasKey(s.table[taken], request.consumer, request.memo);
      assert Known(s.born, s.table[taken]);
    }
  }

  /** An effect that bears no row and announces none. */
  ghost predicate Quiet(s: System, e: Effect) {
    e.born == s.born && Knows(s.born, e.next) && (e.next.Emit? ==> e.next.event.kind != CREATED)
  }

  lemma FailureQuiet(born: map<string, Intent>, q: Process)
    requires !q.Emit? && !q.Done? && Knows(born, q)
    ensures Knows(born, AfterFailure(q)) && !AfterFailure(q).Emit?
  {
  }

  lemma AnnouncementQuiet(born: map<string, Intent>, q: Process, row: Intent)
    requires Updates(q)
    ensures Announcement(q, row).kind != CREATED && Knows(born, AfterUpdate(q)) && !AfterUpdate(q).Emit?
  {
  }

  lemma EmitQuiet(born: map<string, Intent>, next: Process)
    requires Knows(born, next) && !next.Emit?
    ensures forall event: Event | event.kind != CREATED :: Knows(born, Emit(event, next))
  {
  }

  lemma OtherWritesQuiet(s: System, q: Process, choice: Choice)
    requires Knows(s.born, q) && Writes(q) && !q.InsertRow?
    ensures Quiet(s, WriteMove(s, q, choice))
  {
    hide Rewritten, Announcement, AfterUpdate, AfterFailure, Marked, Target, HashTaken;
    FailureQuiet(s.born, q);
    if q.DeleteRow? {
      EmitQuiet(s.born, Done(Removed(q.id)));
    } else if Target(q) in s.table {
      AnnouncementQuiet(s.born, q, Rewritten(q, s.table[Target(q)]));
      EmitQuiet(s.born, AfterUpdate(q));
    }
  }

  lemma WriteKnows(s: System, q: Process, choice: Choice)
    requires Inv(s) && Knows(s.born, q) && Writes(q)
    requires q.InsertRow? ==> choice.Fresh? && choice.id !in s.born
    ensures var e := WriteMove(s, q, choice);
      && Knows(e.born, e.next)
      && (forall id :: Announcing(e.next, id) <==> id in e.born && id !in s.born)
  {
    hide Updating, Deleting;
    if q.InsertRow? {
      InsertKnows(s, q.request, q.expiresAt, choice.id);
    } else {
      OtherWritesQuiet(s, q, choice);
    }
  }

  lemma MoveKnows(c: Config, s: System, q: Process, choice: Choice)
    requires Inv(s) && Knows(s.born, q) && Enabled(c, s, q, choice)
    ensures var e := Move(c, s, q, choice);
      && Knows(e.born, e.next)
      && (forall id :: Announcing(e.next, id) <==> id in e.born && id !in s.born)
  {
    hide WriteMove, ReadMove, Inv;
    if choice.Fail? {
    } else if Writes(q) {
      WriteKnows(s, q, choice);
    } else {
      ReadKnows(c, s, q, choice);
    }
  }

  lemma StepKeepsAnnounced(c: Config, s: System, action: Action)
    requires Inv(s) && Announced(s)
    ensures Announced(Step(c, s, action))
  {
    match action
    case Advance(p, choice) =>
      if p < |s.processes| && Enabled(c, s, s.processes[p], choice) {
        AdvanceKeepsAnnounced(c, s, p, choice);
      }
    case Arrive(request) =>
      if Arrival(request) {
        ArrivalKeepsAnnounced(s, Step(c, s, action), request);
      }
    case TimerFires =>
      if !s.running {
        ArrivalKeepsAnnounced(s, Step(c, s, action), QueryOverdue);
      }
    case _ =>
  }

  lemma ArrivalKeepsAnnounced(s: System, s': System, q: Process)
    requires Announced(s) && !q.Emit? && Knows(s.born, q)
    requires s'.events == s.events && s'.born == s.born && s'.processes == s.processes + [q]
    ensures Announced(s')
  {
    assert s'.processes[..|s'.processes| - 1] == s.processes;
  }

  lemma AdvanceKeepsAnnounced(c: Config, s: System, p: nat, choice: Choice)
    requires Inv(s) && Announced(s) && p < |s.processes| && Enabled(c, s, s.processes[p], choice)
    ensures Announced(Step(c, s, Advance(p, choice)))
  {
    hide Move, Enabled, Consistent, WellFormedLedger, Backed, RowsKnown, DueCount, Knows;
    var q, s' := s.processes[p], Step(c, s, Advance(p, choice));
    var e := Move(c, s, q, choice);
    MoveSound(c, s, q, choice);
    MoveKnows(c, s, q, choice);
    forall id
      ensures CreatedCount(s'.events, id) + DueCount(s'.processes, id) == if id in s'.born then 1 else 0
    {
      DueCountUpdate(s.processes, p, e.next, id);
      if q.Emit? {
        assert s'.events[..|s'.events| - 1] == s.events;
      }
    }
    forall r | 0 <= r < |s'.processes| ensures Knows(s'.born, s'.processes[r]) {
      if r != p {
        KnowsStable(s.born, s'.born, s.processes[r]);
      }
    }
  }

  lemma {:induction false} RunKeepsAnnounced(c: Config, actions: seq<Action>)
    ensures Inv(Run(c, actions)) && Announced(Run(c, actions))
  {
    RunKeepsInv(c, actions);
    if actions != [] {
      RunKeepsAnnounced(c, actions[..|actions| - 1]);
      StepKeepsAnnounced(c, Run(c, actions[..|actions| - 1]), actions[|actions| - 1]);
    }
  }

  // ── What it means ──────────────────────────────────────────────────────────

  /** No row of this key was deleted. */
  ghost predicate NothingDeleted(s: System, consumer: string, memo: string) {
    forall id | id in s.born && HasKey(s.born[id], consumer, memo) :: id in s.table
  }

  /** All completed create calls of one (consumer, memo) returned the same id, it names the only row of
      that key, and at most one CREATED event of the key exists: exactly one once no process is about
      to emit it. */
  lemma CreationIdempotent(c: Config, actions: seq<Action>, p: nat, q: nat, consumer: string, memo: string,
                           i: string, j: string)
    requires var s := Run(c, actions);
      && p < |s.processes| && s.processes[p] == Done(Created(consumer, memo, i))
      && q < |s.processes| && s.processes[q] == Done(Created(consumer, memo, j))
      && NothingDeleted(s, consumer, memo)
    ensures i == j
    ensures var s := Run(c, actions);
      && (forall k :: k in s.table && HasKey(s.table[k], consumer, memo) <==> k == i)
      && (forall k :: k in s.born && HasKey(s.born[k], consumer, memo) <==> k == i)
      && CreatedCount(s.events, i) + DueCount(s.processes, i) == 1
  {
    hide Run, Sound, Backed, WellFormedLedger, WellFormedRow, UniqueHashes;
    RunKeepsAnnounced(c, actions);
    var s := Run(c, actions);
    assert Knows(s.born, s.processes[p]) && Knows(s.born, s.processes[q]);
    assert Known(s.born, s.table[i]) && Known(s.born, s.table[j]);
    forall k
      ensures k in s.table && HasKey(s.table[k], consumer, memo) <==> k == i
      ensures k in s.born && HasKey(s.born[k], consumer, memo) <==> k == i
    {
      if k in s.table {
        assert Known(s.born, s.table[k]);
      }
    }
  }

  /** The fallback lookup after a unique violation comes back empty iff every row of its key has been
      deleted; without deletions the call answers with the existing row. */
  lemma FallbackFindsTheRow(c: Config, actions: seq<Action>, p: nat)
    requires var s := Run(c, actions); p < |s.processes| && s.processes[p].RefetchKey?
    ensures var s := Run(c, actions);
      var q, next := s.processes[p].request, Step(c, s, Advance(p, Proceed)).processes[p];
      && (next == Done(Failed) <==> !KeyTaken(s.table, q.consumer, q.memo))
      && (NothingDeleted(s, q.consumer, q.memo) ==>
            exists id :: id in s.table && HasKey(s.table[id], q.consumer, q.memo)
              && next == Done(Created(q.consumer, q.memo, id)))
  {
    hide Run, WriteMove, VerifyMove, NextPending, SeekMatch, DueCount, CreatedCount, Backed, Sound, WellFormedLedger,
         UniqueHashes, WellFormedRow;
    RunKeepsAnnounced(c, actions);
    var s := Run(c, actions);
    var q := s.processes[p].request;
    assert Knows(s.born, s.processes[p]);
    var id :| id in s.born && HasKey(s.born[id], q.consumer, q.memo);
    if NothingDeleted(s, q.consumer, q.memo) {
      assert Known(s.born, s.table[id]);
      var r := FindByMemo(s.table, q.consumer, q.memo);
      var found :| found in s.table && s.table[found] == r.value;
      assert s.table[found].id == found;
    }
  }
}
