/** The observer's cycles never overlap: the `running` flag is up exactly while one is in flight. */
module Cycles {
  import opened Wrappers
  import opened Intents
  import opened Verifier
  import opened Lifecycle

  predicate InCycle(q: Process) {
    match q
    case QueryOverdue => true
    case QueryPending => true
    case WriteExpired(_) => true
    case FetchTransaction(_, _, caller) => caller.Observer?
    case FetchPayments(_, _, caller) => caller.Observer?
    case FetchPage(_, caller) => caller.Observer?
    case FetchOwner(_, _, caller) => caller.Observer?
    case ReadSource(_, _, _, caller) => caller.Observer?
    case WriteSettled(_, _, _, caller) => caller.Observer?
    case Emit(_, next) => InCycle(next) || next == Done(CycleEnded)
    case _ => false
  }

  ghost predicate OneCycle(s: System) {
    && (s.running <==> exists p :: 0 <= p < |s.processes| && InCycle(s.processes[p]))
    && forall p, q | 0 <= p < |s.processes| && 0 <= q < |s.processes| && InCycle(s.processes[p])
        && InCycle(s.processes[q]) :: p == q
  }

  /** A process in a cycle stays in it until the cycle ends; the others never join one. */
  predicate Follows(q: Process, next: Process) {
    if InCycle(q) then InCycle(next) || next == Done(CycleEnded)
    else !InCycle(next) && next != Done(CycleEnded)
  }

  predicate CallerFollows(caller: Caller, next: Process) {
    if caller.Observer? then InCycle(next) || next == Done(CycleEnded)
    else !InCycle(next) && next != Done(CycleEnded)
  }

  lemma {:induction false} SeekMatchFollows(intent: Intent, page: seq<Operation>, caller: Caller)
    ensures CallerFollows(caller, SeekMatch(intent, page, caller))
  {
    if page != [] {
      SeekMatchFollows(intent, page[1..], caller);
    }
  }

  lemma VerifyFollows(c: Config, s: System, q: Process)
    requires Verifies(q) && (q.FetchOwner? ==> q.page != [])
    ensures Follows(q, VerifyMove(c, s, q))
  {
    if q.FetchPage? {
      SeekMatchFollows(q.intent, RecentPage(s.ledger, q.intent.network, q.intent.destination, c.scanLimit), q.caller);
    } else if q.FetchOwner? {
      SeekMatchFollows(q.intent, q.page[1..], q.caller);
    }
  }

  lemma FailureFollows(q: Process)
    requires !q.Emit? && !q.Done?
    ensures Follows(q, AfterFailure(q))
  {
  }

  lemma UpdateFollows(q: Process)
    requires Updates(q)
    ensures Follows(q, AfterUpdate(q))
  {
  }

  lemma ReadFollows(c: Config, s: System, q: Process, choice: Choice)
    requires Enabled(c, s, q, choice) && !Writes(q) && !choice.Fail?
    ensures Follows(q, ReadMove(c, s, q, choice))
  {
    if Verifies(q) {
      VerifyFollows(c, s, q);
    }
  }

  /** The event in between changes nothing. */
  lemma EmitFollows(q: Process, next: Process)
    requires Follows(q, next)
    ensures forall event: Event :: Follows(q, Emit(event, next))
  {
  }

  lemma WriteFollows(s: System, q: Process, choice: Choice)
    requires Writes(q) && (q.InsertRow? ==> choice.Fresh?)
    ensures Follows(q, WriteMove(s, q, choice).next)
  {
    hide Rewritten, Announcement, AfterUpdate, AfterFailure, Marked, Target, HashTaken, KeyTaken;
    FailureFollows(q);
    if q.InsertRow? {
      EmitFollows(q, Done(Created(q.request.consumer, q.request.memo, choice.id)));
    } else if q.DeleteRow? {
      EmitFollows(q, Done(Removed(q.id)));
    } else {
      UpdateFollows(q);
      EmitFollows(q, AfterUpdate(q));
    }
  }

  lemma MoveFollows(c: Config, s: System, q: Process, choice: Choice)
    requires Enabled(c, s, q, choice)
    ensures Follows(q, Move(c, s, q, choice).next)
  {
    hide WriteMove, ReadMove, AfterFailure;
    if choice.Fail? {
      FailureFollows(q);
    } else if Writes(q) {
      WriteFollows(s, q, choice);
    } else {
      ReadFollows(c, s, q, choice);
    }
  }

  /** In every run, in any interleaving. */
  lemma {:induction false} CyclesNeverOverlap(c: Config, actions: seq<Action>)
    ensures OneCycle(Run(c, actions))
  {
    if actions != [] {
      var front, action := actions[..|actions| - 1], actions[|actions| - 1];
      CyclesNeverOverlap(c, front);
      var s, s' := Run(c, front), Run(c, actions);
      if action.Advance? && action.p < |s.processes| && Enabled(c, s, s.processes[action.p], action.choice) {
        MoveFollows(c, s, s.processes[action.p], action.choice);
        AdvanceKeepsOneCycle(s, s', action.p);
      } else if |s'.processes| > |s.processes| {
        ArrivalKeepsOneCycle(s, s', s'.processes[|s.processes|]);
      }
    }
  }

  lemma AdvanceKeepsOneCycle(s: System, s': System, p: nat)
    requires OneCycle(s) && p < |s.processes| && |s'.processes| == |s.processes|
    requires s'.processes == s.processes[p := s'.processes[p]]
    requires Follows(s.processes[p], s'.processes[p])
    requires s'.running == (s.running && s'.processes[p] != Done(CycleEnded))
    ensures OneCycle(s')
  {
    if InCycle(s'.processes[p]) {
      assert InCycle(s.processes[p]);
    } else if !InCycle(s.processes[p]) && s.running {
      var r :| 0 <= r < |s.processes| && InCycle(s.processes[r]);
      assert InCycle(s'.processes[r]);
    }
  }

  lemma ArrivalKeepsOneCycle(s: System, s': System, q: Process)
    requires OneCycle(s) && s'.processes == s.processes + [q]
    requires if InCycle(q) then !s.running && s'.running else s'.running == s.running
    ensures OneCycle(s')
  {
    if InCycle(q) {
      assert s'.processes[|s.processes|] == q;
    } else if s.running {
      var r :| 0 <= r < |s.processes| && InCycle(s.processes[r]);
      assert s'.processes[r] == s.processes[r];
    }
  }
}
