/** The event log of the concurrent system: in which order writes and events come, and exactly when the log
    falls behind the table. */
module Journal {
  import opened Wrappers
  import opened Intents
  import opened Verifier
  import opened Lifecycle
  import opened Settlement
  import opened Creation

  // ── Single rows ────────────────────────────────────────────────────────────

  function At(t: Table, id: string): Option<Intent> { if id in t then Some(t[id]) else None }

  /** What an event says about its row. */
  function Told(event: Event): Option<Intent> { if event.kind == DELETED then None else Some(event.row) }

  lemma ApplyAt(t: Table, event: Event, id: string)
    ensures At(Apply(t, event), id) == if id == event.row.id then Told(event) else At(t, id)
  {
  }

  lemma SameTables(t: Table, u: Table)
    ensures t == u <==> forall id :: At(t, id) == At(u, id)
  {
    if forall id :: At(t, id) == At(u, id) {
      assert forall id :: id in t <==> At(t, id).Some?;
      assert forall id :: id in u <==> At(u, id).Some?;
      forall id | id in t ensures t[id] == u[id] { assert At(t, id) == At(u, id); }
      assert t.Keys == u.Keys;
    }
  }

  // ── One write, one event ───────────────────────────────────────────────────

  /** An effect that leaves the table alone and owes no event, or applies exactly the event it owes. */
  ghost predicate Local(t: Table, e: Effect) {
    if e.next.Emit? then e.table == Apply(t, e.next.event) && !e.next.next.Emit? else e.table == t
  }

  lemma AnnouncesRewritten(q: Process, row: Intent)
    requires Updates(q)
    ensures Announcement(q, row).row == row && Announcement(q, row).kind != DELETED && !AfterUpdate(q).Emit?
  {
  }

  lemma RefusedIsLocal(s: System, q: Process)
    requires !q.Emit? && !q.Done?
    ensures Local(s.table, Refused(s, q))
  {
  }

  lemma WriteIsLocal(s: System, q: Process, choice: Choice)
    requires Keyed(s.table) && Writes(q) && (q.InsertRow? ==> choice.Fresh?)
    ensures Local(s.table, WriteMove(s, q, choice))
  {
    hide Rewritten, Announcement, AfterUpdate, AfterFailure, Marked, Target, HashTaken, KeyTaken;
    RefusedIsLocal(s, q);
    if Updates(q) && Target(q) in s.table {
      AnnouncesRewritten(q, Rewritten(q, s.table[Target(q)]));
    }
  }

  /** Every call leaves the table alone, or changes one row and owes the one event that says so. */
  lemma MoveIsLocal(c: Config, s: System, q: Process, choice: Choice)
    requires Inv(s) && Knows(s.born, q) && Enabled(c, s, q, choice)
    ensures Local(s.table, Move(c, s, q, choice)) && (q.Emit? ==> !Move(c, s, q, choice).next.Emit?)
  {
    hide WriteMove, ReadMove, AfterFailure;
    if choice.Fail? {
      RefusedIsLocal(s, q);
    } else if Writes(q) {
      WriteIsLocal(s, q, choice);
    } else {
      ReadKnows(c, s, q, choice);
    }
  }

  // ── The order of writes ────────────────────────────────────────────────────

  /** The event a step's write owes, if it wrote. */
  ghost function WrittenBy(c: Config, s: System, action: Action): seq<Event> {
    if action.Advance? && action.p < |s.processes| && Enabled(c, s, s.processes[action.p], action.choice)
       && Move(c, s, s.processes[action.p], action.choice).next.Emit?
    then [Move(c, s, s.processes[action.p], action.choice).next.event]
    else []
  }

  /** The events of a run's writes, in the order of the writes. */
  ghost function Written(c: Config, actions: seq<Action>): seq<Event> {
    if actions == [] then []
    else Written(c, actions[..|actions| - 1]) + WrittenBy(c, Run(c, actions[..|actions| - 1]), actions[|actions| - 1])
  }

  /** Replaying the writes' events in their own order rebuilds the table, in every interleaving. */
  lemma {:induction false} WritesRebuildTable(c: Config, actions: seq<Action>)
    ensures Replay(Written(c, actions)) == Run(c, actions).table
  {
    if actions != [] {
      var front, action := actions[..|actions| - 1], actions[|actions| - 1];
      WritesRebuildTable(c, front);
      RunKeepsAnnounced(c, front);
      StepIsWritten(c, Run(c, front), action, Written(c, front));
    }
  }

  lemma StepIsWritten(c: Config, s: System, action: Action, before: seq<Event>)
    requires Inv(s) && Announced(s) && Replay(before) == s.table
    ensures Replay(before + WrittenBy(c, s, action)) == Step(c, s, action).table
  {
    hide Move, Enabled, Inv, Announced, Apply, Replay;
    assert before + [] == before;
    if action.Advance? && action.p < |s.processes| && Enabled(c, s, s.processes[action.p], action.choice) {
      KnownToAll(s, action.p);
      MoveIsLocal(c, s, s.processes[action.p], action.choice);
      if WrittenBy(c, s, action) != [] {
        ReplayAppend(before, WrittenBy(c, s, action)[0]);
      }
    }
  }

  lemma KnownToAll(s: System, p: nat)
    requires Announced(s) && p < |s.processes|
    ensures Knows(s.born, s.processes[p])
  {
  }

  // ── Conservation ───────────────────────────────────────────────────────────

  /** The events that processes are about to emit. */
  function Due(ps: seq<Process>): multiset<Event> {
    if ps == [] then multiset{} else Due(ps[..|ps| - 1]) + Owed(ps[|ps| - 1])
  }

  function Owed(q: Process): multiset<Event> { if q.Emit? then multiset{q.event} else multiset{} }

  lemma {:induction false} DueUpdate(ps: seq<Process>, p: nat, q: Process)
    requires p < |ps|
    ensures Due(ps[p := q]) + Owed(ps[p]) == Due(ps) + Owed(q)
  {
    hide Owed;
    var updated := ps[p := q];
    if p == |ps| - 1 {
      assert updated[..|ps| - 1] == ps[..|ps| - 1];
    } else {
      assert updated[..|ps| - 1] == ps[..|ps| - 1][p := q];
      DueUpdate(ps[..|ps| - 1], p, q);
      Regroup(Due(updated[..|ps| - 1]), Owed(ps[p]), Due(ps[..|ps| - 1]), Owed(q), Owed(ps[|ps| - 1]));
    }
  }

  lemma Regroup(a: multiset<Event>, b: multiset<Event>, c: multiset<Event>, d: multiset<Event>, e: multiset<Event>)
    requires a + b == c + d
    ensures (a + e) + b == (c + e) + d
  {
    assert (a + e) + b == (a + b) + e;
    assert (c + e) + d == (c + d) + e;
  }

  lemma DueAppend(ps: seq<Process>, q: Process)
    ensures Due(ps + [q]) == Due(ps) + Owed(q)
  {
    assert (ps + [q])[..|ps|] == ps;
  }

  /** Every write has exactly one event, already in the log or still owed by one process. */
  lemma {:induction false} OneEventPerWrite(c: Config, actions: seq<Action>)
    ensures multiset(Written(c, actions)) == multiset(Run(c, actions).events) + Due(Run(c, actions).processes)
  {
    if actions != [] {
      var front, action := actions[..|actions| - 1], actions[|actions| - 1];
      OneEventPerWrite(c, front);
      RunKeepsAnnounced(c, front);
      StepConserves(c, Run(c, front), action, Written(c, front));
    }
  }

  lemma StepConserves(c: Config, s: System, action: Action, before: seq<Event>)
    requires Inv(s) && Announced(s) && multiset(before) == multiset(s.events) + Due(s.processes)
    ensures var s' := Step(c, s, action);
      multiset(before + WrittenBy(c, s, action)) == multiset(s'.events) + Due(s'.processes)
  {
    hide Move, Enabled, Inv, Announced, Due, Arrival, Owed;
    if action.Advance? && action.p < |s.processes| && Enabled(c, s, s.processes[action.p], action.choice) {
      CallConserves(c, s, action.p, action.choice, before);
    } else {
      assert before + [] == before;
      if action.Arrive? {
        ArrivalOwesNothing(s.processes, action.request);
      } else if action.TimerFires? {
        ArrivalOwesNothing(s.processes, QueryOverdue);
      }
    }
  }

  lemma CallConserves(c: Config, s: System, p: nat, choice: Choice, before: seq<Event>)
    requires Inv(s) && Announced(s) && multiset(before) == multiset(s.events) + Due(s.processes)
    requires p < |s.processes| && Enabled(c, s, s.processes[p], choice)
    ensures var s' := Step(c, s, Advance(p, choice));
      multiset(before + WrittenBy(c, s, Advance(p, choice))) == multiset(s'.events) + Due(s'.processes)
  {
    hide Move, Enabled, Inv, Announced, Due, Owed;
    var q, next := s.processes[p], Move(c, s, s.processes[p], choice).next;
    KnownToAll(s, p);
    MoveIsLocal(c, s, q, choice);
    DueUpdate(s.processes, p, next);
    AdvanceConserves(s.events, Due(s.processes), Due(s.processes[p := next]), q, next, before);
  }

  lemma ArrivalOwesNothing(ps: seq<Process>, q: Process)
    ensures Arrival(q) || q.QueryOverdue? ==> Due(ps + [q]) == Due(ps)
  {
    DueAppend(ps, q);
  }

  lemma AdvanceConserves(events: seq<Event>, due: multiset<Event>, due': multiset<Event>, q: Process, next: Process,
                         before: seq<Event>)
    requires multiset(before) == multiset(events) + due && due' + Owed(q) == due + Owed(next)
    requires !(q.Emit? && next.Emit?)
    ensures multiset(before + if next.Emit? then [next.event] else [])
         == multiset(if q.Emit? then events + [q.event] else events) + due'
  {
    hide Owed;
    OwedBy(q);
    OwedBy(next);
    var log := multiset(events);
    if q.Emit? {
      assert before + [] == before;
      assert log + (due' + multiset{q.event}) == (log + multiset{q.event}) + due';
    } else if next.Emit? {
      assert due' + multiset{} == due';
      assert (log + due) + multiset{next.event} == log + (due + multiset{next.event});
    } else {
      assert before + [] == before;
      assert due' + multiset{} == due' && due + multiset{} == due;
    }
  }

  lemma OwedBy(q: Process)
    ensures Owed(q) == if q.Emit? then multiset{q.event} else multiset{}
  {
  }

  // ── When the log rebuilds the table ────────────────────────────────────────

  /** What a list of events says last about a row. */
  function LastTold(events: seq<Event>, id: string): Option<Intent> {
    if events == [] then None
    else if events[|events| - 1].row.id == id then Told(events[|events| - 1])
    else LastTold(events[..|events| - 1], id)
  }

  lemma {:induction false} ReplayTellsLast(events: seq<Event>, id: string)
    ensures At(Replay(events), id) == LastTold(events, id)
  {
    if events != [] {
      ReplayTellsLast(events[..|events| - 1], id);
      ApplyAt(Replay(events[..|events| - 1]), events[|events| - 1], id);
    }
  }

  /** In every run the log rebuilds the table iff, for each row, the event emitted last says what the event of
      the last write says. */
  lemma LogRebuildsIff(c: Config, actions: seq<Action>)
    ensures Replay(Run(c, actions).events) == Run(c, actions).table <==>
              forall id :: LastTold(Run(c, actions).events, id) == LastTold(Written(c, actions), id)
  {
    hide Run, Written, Replay, LastTold, At;
    var log, writes := Run(c, actions).events, Written(c, actions);
    WritesRebuildTable(c, actions);
    SameTables(Replay(log), Replay(writes));
    if forall id :: LastTold(log, id) == LastTold(writes, id) {
      forall id ensures At(Replay(log), id) == At(Replay(writes), id) {
        ReplayTellsLast(log, id);
        ReplayTellsLast(writes, id);
        assert LastTold(log, id) == LastTold(writes, id);
      }
    } else {
      var id: string :| LastTold(log, id) != LastTold(writes, id);
      ReplayTellsLast(log, id);
      ReplayTellsLast(writes, id);
    }
  }

  // ── Staying up to date ─────────────────────────────────────────────────────

  predicate Owes(q: Process, id: string) { q.Emit? && q.event.row.id == id }

  ghost predicate Clear(ps: seq<Process>, id: string) { forall r | 0 <= r < |ps| :: !Owes(ps[r], id) }

  /** The log agrees with the table on every row without a due event. */
  ghost predicate UpToDate(s: System) {
    forall id :: Clear(s.processes, id) ==> At(Replay(s.events), id) == At(s.table, id)
  }

  /** The last due event of a row leaves, and is not what the table now holds. */
  ghost predicate LeavesStale(s: System, action: Action) {
    && action.Advance? && action.choice == Proceed && action.p < |s.processes| && s.processes[action.p].Emit?
    && var event := s.processes[action.p].event;
      && (forall r | 0 <= r < |s.processes| && r != action.p :: !Owes(s.processes[r], event.row.id))
      && Told(event) != At(s.table, event.row.id)
  }

  lemma EmitBreaksIff(c: Config, s: System, p: nat)
    requires Inv(s) && Announced(s) && UpToDate(s) && p < |s.processes| && s.processes[p].Emit?
    ensures !UpToDate(Step(c, s, Advance(p, Proceed))) <==> LeavesStale(s, Advance(p, Proceed))
  {
    hide Inv, Announced, At, Replay, Apply, Told;
    var q := s.processes[p];
    var event := q.event;
    var s' := Step(c, s, Advance(p, Proceed));
    KnownToAll(s, p);
    assert s'.processes == s.processes[p := q.next] && !q.next.Emit?;
    ReplayAppend(s.events, event);
    forall id
      ensures At(Replay(s'.events), id) == if id == event.row.id then Told(event) else At(Replay(s.events), id)
    {
      ApplyAt(Replay(s.events), event, id);
    }
    forall id | id != event.row.id ensures Clear(s'.processes, id) <==> Clear(s.processes, id) {
      ClearElsewhere(s.processes, p, q.next, id);
    }
    LastOneClears(s.processes, p, q.next, event.row.id);
  }

  lemma ClearElsewhere(ps: seq<Process>, p: nat, next: Process, id: string)
    requires p < |ps| && !Owes(ps[p], id) && !Owes(next, id)
    ensures Clear(ps[p := next], id) <==> Clear(ps, id)
  {
    var after := ps[p := next];
    forall r | 0 <= r < |ps| && r != p ensures after[r] == ps[r] {}
  }

  lemma LastOneClears(ps: seq<Process>, p: nat, next: Process, id: string)
    requires p < |ps| && !Owes(next, id)
    ensures Clear(ps[p := next], id) <==> forall r | 0 <= r < |ps| && r != p :: !Owes(ps[r], id)
  {
    var after := ps[p := next];
    forall r | 0 <= r < |ps| && r != p ensures after[r] == ps[r] {}
  }

  lemma CallKeepsUpToDate(c: Config, s: System, p: nat, choice: Choice)
    requires Inv(s) && Announced(s) && UpToDate(s) && p < |s.processes| && Enabled(c, s, s.processes[p], choice)
    requires !s.processes[p].Emit?
    ensures UpToDate(Step(c, s, Advance(p, choice)))
  {
    hide Inv, Announced, At, Replay, Apply, Told, Move;
    var q, e, s' := s.processes[p], Move(c, s, s.processes[p], choice), Step(c, s, Advance(p, choice));
    KnownToAll(s, p);
    MoveIsLocal(c, s, q, choice);
    forall id | Clear(s'.processes, id) ensures At(Replay(s'.events), id) == At(s'.table, id) {
      assert !Owes(s'.processes[p], id);
      ClearElsewhere(s.processes, p, e.next, id);
      if e.next.Emit? {
        ApplyAt(s.table, e.next.event, id);
      }
    }
  }

  /** From an up-to-date state exactly the steps that emit a row's last due event, stale, make the log fall
      behind. */
  lemma StepBreaksIff(c: Config, s: System, action: Action)
    requires Inv(s) && Announced(s) && UpToDate(s)
    ensures !UpToDate(Step(c, s, action)) <==> LeavesStale(s, action)
  {
    hide Inv, Announced, Move, Replay, At;
    match action
    case Advance(p, choice) =>
      if p < |s.processes| && Enabled(c, s, s.processes[p], choice) {
        if s.processes[p].Emit? {
          EmitBreaksIff(c, s, p);
        } else {
          CallKeepsUpToDate(c, s, p, choice);
        }
      }
    case Arrive(request) => ArrivalClear(s.processes, request);
    case TimerFires => ArrivalClear(s.processes, QueryOverdue);
    case _ =>
  }

  lemma ArrivalClear(ps: seq<Process>, q: Process)
    ensures !q.Emit? ==> forall id :: Clear(ps + [q], id) <==> Clear(ps, id)
    ensures Arrival(q) ==> !q.Emit?
  {
    if !q.Emit? {
      forall id ensures Clear(ps + [q], id) <==> Clear(ps, id) {
        forall r | 0 <= r < |ps| ensures (ps + [q])[r] == ps[r] {}
      }
    }
  }

  /** A run keeps the log up to date throughout iff no step of it emits a row's last due event stale. */
  lemma {:induction false} StaysUpToDateIff(c: Config, actions: seq<Action>)
    ensures (forall i | 0 <= i <= |actions| :: UpToDate(Run(c, actions[..i]))) <==>
              (forall i | 0 <= i < |actions| :: !LeavesStale(Run(c, actions[..i]), actions[i]))
  {
    hide Run, UpToDate, LeavesStale;
    if actions == [] {
      StartsUpToDate(c);
      assert actions[..0] == [];
    } else {
      var n := |actions| - 1;
      var front := actions[..n];
      StaysUpToDateIff(c, front);
      forall i | 0 <= i <= n ensures front[..i] == actions[..i] {}
      RunKeepsAnnounced(c, front);
      RunNext(c, actions);
      if UpToDate(Run(c, front)) {
        StepBreaksIff(c, Run(c, front), actions[n]);
      }
      assert actions[..n + 1] == actions && front[..n] == front;
    }
  }

  lemma StartsUpToDate(c: Config)
    ensures UpToDate(Run(c, []))
  {
  }

  // ── Writes that wait for their events ──────────────────────────────────────

  /** If the step writes, no event of that row is due. */
  ghost predicate WritesInTurn(c: Config, s: System, action: Action) {
    WrittenBy(c, s, action) != [] ==> Clear(s.processes, WrittenBy(c, s, action)[0].row.id)
  }

  /** The log is up to date, and every due event says what the table holds. */
  ghost predicate Current(s: System) {
    UpToDate(s) && forall r | 0 <= r < |s.processes| :: TellsTable(s.table, s.processes[r])
  }

  predicate TellsTable(t: Table, q: Process) { q.Emit? ==> Told(q.event) == At(t, q.event.row.id) }

  lemma CallKeepsCurrent(c: Config, s: System, p: nat, choice: Choice)
    requires Inv(s) && Announced(s) && Current(s) && p < |s.processes| && Enabled(c, s, s.processes[p], choice)
    requires !s.processes[p].Emit? && WritesInTurn(c, s, Advance(p, choice))
    ensures Current(Step(c, s, Advance(p, choice)))
  {
    hide Inv, Announced, At, Apply, Told, Move, UpToDate;
    var q, e, s' := s.processes[p], Move(c, s, s.processes[p], choice), Step(c, s, Advance(p, choice));
    CallKeepsUpToDate(c, s, p, choice);
    KnownToAll(s, p);
    MoveIsLocal(c, s, q, choice);
    forall r | 0 <= r < |s'.processes| ensures TellsTable(s'.table, s'.processes[r]) {
      var other := s'.processes[r];
      if other.Emit? && e.next.Emit? {
        ApplyAt(s.table, e.next.event, other.event.row.id);
        if r != p {
          assert TellsTable(s.table, other) && !Owes(s.processes[r], e.next.event.row.id);
        }
      } else if r != p {
        assert TellsTable(s.table, other);
      }
    }
  }

  lemma EmitKeepsCurrent(c: Config, s: System, p: nat)
    requires Inv(s) && Announced(s) && Current(s) && p < |s.processes| && s.processes[p].Emit?
    ensures Current(Step(c, s, Advance(p, Proceed)))
  {
    hide Inv, Announced, At, Told, UpToDate;
    var s' := Step(c, s, Advance(p, Proceed));
    KnownToAll(s, p);
    EmitBreaksIff(c, s, p);
    assert TellsTable(s.table, s.processes[p]);
    forall r | 0 <= r < |s'.processes| ensures TellsTable(s'.table, s'.processes[r]) {
      assert r != p ==> TellsTable(s.table, s.processes[r]);
    }
  }

  lemma StepKeepsCurrent(c: Config, s: System, action: Action)
    requires Inv(s) && Announced(s) && Current(s) && WritesInTurn(c, s, action)
    ensures Current(Step(c, s, action))
  {
    hide Inv, Announced, Move, Replay, At, Told, WritesInTurn;
    match action
    case Advance(p, choice) =>
      if p < |s.processes| && Enabled(c, s, s.processes[p], choice) {
        if s.processes[p].Emit? {
          EmitKeepsCurrent(c, s, p);
        } else {
          CallKeepsCurrent(c, s, p, choice);
        }
      }
    case Arrive(request) => ArrivalClear(s.processes, request);
    case TimerFires => ArrivalClear(s.processes, QueryOverdue);
    case _ =>
  }

  lemma {:induction false} InTurnIsCurrent(c: Config, actions: seq<Action>)
    requires forall i | 0 <= i < |actions| :: WritesInTurn(c, Run(c, actions[..i]), actions[i])
    ensures Current(Run(c, actions))
  {
    hide Run, WritesInTurn, Current;
    if actions == [] {
      StartsCurrent(c);
    } else {
      var n := |actions| - 1;
      var front := actions[..n];
      forall i | 0 <= i < n ensures front[..i] == actions[..i] {}
      InTurnIsCurrent(c, front);
      RunKeepsAnnounced(c, front);
      RunNext(c, actions);
      StepKeepsCurrent(c, Run(c, front), actions[n]);
    }
  }

  lemma StartsCurrent(c: Config)
    ensures Current(Run(c, []))
  {
  }

  /** If no process writes a row between another's write of it and that write's event, the log stays up to date,
      and whenever no event is due it rebuilds the table exactly: all other interleaving is harmless. */
  lemma WritesInTurnRebuild(c: Config, actions: seq<Action>)
    requires forall i | 0 <= i < |actions| :: WritesInTurn(c, Run(c, actions[..i]), actions[i])
    ensures var s := Run(c, actions);
      UpToDate(s) && ((forall id :: Clear(s.processes, id)) ==> Replay(s.events) == s.table)
  {
    hide Run, WritesInTurn, Replay, At, Clear;
    InTurnIsCurrent(c, actions);
    SameTables(Replay(Run(c, actions).events), Run(c, actions).table);
  }
}
