/** Several runs of the retry loop on one delivery, side by side: a redelivery may be asked for while an
    earlier run is still waiting between two POSTs. Each run counts on from the row as it read it, and writes
    its count over whatever the row holds by then. */
module Redeliveries {
  import opened Wrappers
  import opened Intents
  import opened Signature
  import opened Webhooks

  /** A run: the row it was started with and the replies its POSTs got, until it has written its outcome. */
  datatype Stage = Sending(snapshot: Delivery, got: seq<Reply>) | Ended

  /** The stored row, how many POSTs were ever made for it, and the runs in the order they began. */
  datatype State = State(row: Delivery, made: nat, runs: seq<Stage>)

  datatype Action = Begin | Answer(run: nat, reply: Reply) | Finalize(run: nat)

  /** The loop is over: a 2xx, or no attempts left. */
  predicate Over(max: nat, got: seq<Reply>) { |got| == max || (got != [] && Ok(got[|got| - 1])) }

  predicate Running(s: State, r: nat) { r < |s.runs| && s.runs[r].Sending? }

  function LastOf(got: seq<Reply>): Option<Reply> { if got == [] then None else Some(got[|got| - 1]) }

  /** What a run writes over the row. */
  function Overwritten(row: Delivery, run: Stage): Delivery
    requires run.Sending?
  {
    Recorded(row.(attempts := run.snapshot.attempts), LastOf(run.got), |run.got|)
  }

  predicate Finalizes(max: nat, s: State, a: Action) {
    a.Finalize? && Running(s, a.run) && Over(max, s.runs[a.run].got)
  }

  function Step(max: nat, s: State, a: Action): State {
    match a
    case Begin => s.(runs := s.runs + [Sending(s.row, [])])
    case Answer(r, reply) =>
      if Running(s, r) && !Over(max, s.runs[r].got) then
        s.(made := s.made + 1, runs := s.runs[r := s.runs[r].(got := s.runs[r].got + [reply])])
      else s
    case Finalize(r) =>
      if Finalizes(max, s, a) then s.(row := Overwritten(s.row, s.runs[r]), runs := s.runs[r := Ended]) else s
  }

  /** A history of one delivery, starting from its stored row. */
  function Run(max: nat, d: Delivery, actions: seq<Action>): State {
    if actions == [] then State(d, d.attempts, [])
    else Step(max, Run(max, d, actions[..|actions| - 1]), actions[|actions| - 1])
  }

  // ── The books ──────────────────────────────────────────────────────────────

  function CountOf(run: Stage): nat { if run.Sending? then |run.got| else 0 }

  /** The POSTs of the runs that have not written their outcome. */
  function Unwritten(runs: seq<Stage>): nat {
    if runs == [] then 0 else Unwritten(runs[..|runs| - 1]) + CountOf(runs[|runs| - 1])
  }

  lemma {:induction false} UnwrittenUpdate(runs: seq<Stage>, r: nat, run: Stage)
    requires r < |runs|
    ensures Unwritten(runs[r := run]) + CountOf(runs[r]) == Unwritten(runs) + CountOf(run)
  {
    var updated := runs[r := run];
    if r == |runs| - 1 {
      assert updated[..|runs| - 1] == runs[..|runs| - 1];
    } else {
      assert updated[..|runs| - 1] == runs[..|runs| - 1][r := run];
      UnwrittenUpdate(runs[..|runs| - 1], r, run);
    }
  }

  lemma UnwrittenAppend(runs: seq<Stage>, run: Stage)
    ensures Unwritten(runs + [run]) == Unwritten(runs) + CountOf(run)
  {
    assert (runs + [run])[..|runs|] == runs;
  }

  lemma OverwrittenCount(row: Delivery, run: Stage)
    requires run.Sending?
    ensures Overwritten(row, run).attempts == run.snapshot.attempts + |run.got|
  {
  }

  /** POSTs made that neither the row nor an unfinished run accounts for. */
  function Lost(s: State): int { s.made - s.row.attempts - Unwritten(s.runs) }

  predicate Books(s: State) { s.row.attempts + Unwritten(s.runs) == s.made }

  /** How much of the stored count a step writes over: what the row has gained since the run read it. */
  function Drop(max: nat, s: State, a: Action): int {
    if Finalizes(max, s, a) then s.row.attempts - s.runs[a.run].snapshot.attempts else 0
  }

  /** A run's outcome replaces a count that is no longer the one the run read. */
  predicate WritesStale(max: nat, s: State, a: Action) {
    Finalizes(max, s, a) && s.row.attempts != s.runs[a.run].snapshot.attempts
  }

  lemma StepLoses(max: nat, s: State, a: Action)
    ensures Lost(Step(max, s, a)) == Lost(s) + Drop(max, s, a)
  {
    hide Over, Overwritten, Unwritten;
    match a
    case Begin => UnwrittenAppend(s.runs, Sending(s.row, []));
    case Answer(r, reply) =>
      if Running(s, r) {
        UnwrittenUpdate(s.runs, r, s.runs[r].(got := s.runs[r].got + [reply]));
      }
    case Finalize(r) =>
      if Running(s, r) {
        UnwrittenUpdate(s.runs, r, Ended);
        OverwrittenCount(s.row, s.runs[r]);
      }
  }

  /** From balanced books exactly the outcomes written over a changed count unbalance them. */
  lemma StepUnbalancesIff(max: nat, s: State, a: Action)
    requires Books(s)
    ensures !Books(Step(max, s, a)) <==> WritesStale(max, s, a)
  {
    StepLoses(max, s, a);
  }

  function TotalDrop(max: nat, d: Delivery, actions: seq<Action>): int {
    if actions == [] then 0
    else
      var front := actions[..|actions| - 1];
      TotalDrop(max, d, front) + Drop(max, Run(max, d, front), actions[|actions| - 1])
  }

  /** In every history, however its runs overlap, the POSTs unaccounted for are the counts written over. */
  lemma {:induction false} LostIsOverwritten(max: nat, d: Delivery, actions: seq<Action>)
    ensures Lost(Run(max, d, actions)) == TotalDrop(max, d, actions)
  {
    if actions != [] {
      LostIsOverwritten(max, d, actions[..|actions| - 1]);
      StepLoses(max, Run(max, d, actions[..|actions| - 1]), actions[|actions| - 1]);
    }
  }

  /** A history keeps its books balanced throughout iff no run ever writes over a count that has changed
      since it read the row. */
  lemma {:induction false} BooksBalanceIff(max: nat, d: Delivery, actions: seq<Action>)
    ensures (forall i | 0 <= i <= |actions| :: Books(Run(max, d, actions[..i]))) <==>
              (forall i | 0 <= i < |actions| :: !WritesStale(max, Run(max, d, actions[..i]), actions[i]))
  {
    hide Books, WritesStale, Step, Run;
    if actions == [] {
      StartsBalanced(max, d);
      assert actions[..0] == [];
    } else {
      var n := |actions| - 1;
      var front := actions[..n];
      BooksBalanceIff(max, d, front);
      forall i | 0 <= i <= n ensures front[..i] == actions[..i] {}
      assert actions[..n + 1] == actions && front[..n] == front;
      RunAppend(max, d, front, actions[n]);
      assert front + [actions[n]] == actions;
      if Books(Run(max, d, front)) {
        StepUnbalancesIff(max, Run(max, d, front), actions[n]);
      }
    }
  }

  lemma StartsBalanced(max: nat, d: Delivery)
    ensures Books(Run(max, d, []))
  {
  }

  // ── One run at a time ──────────────────────────────────────────────────────

  /** Every run begins when the ones before have written their outcomes. */
  ghost predicate OneAtATime(max: nat, d: Delivery, actions: seq<Action>) {
    forall i | 0 <= i < |actions| && actions[i].Begin? :: forall r: nat :: !Running(Run(max, d, actions[..i]), r)
  }

  /** At most one run is unfinished; it counts on from the row as it stands, and stopped at no 2xx yet. */
  ghost predicate Orderly(max: nat, s: State) {
    && (forall r: nat, q: nat | Running(s, r) && Running(s, q) :: r == q)
    && forall r: nat | Running(s, r) :: Counting(max, s.row, s.runs[r])
  }

  predicate Counting(max: nat, row: Delivery, run: Stage)
    requires run.Sending?
  {
    && run.snapshot == row && |run.got| <= max
    && (forall j | 0 <= j < |run.got| - 1 :: !Ok(run.got[j]))
  }

  /** The outcome of an orderly run is that of the retry loop run alone on the replies it got. */
  lemma OutcomeIsAfterRun(max: nat, row: Delivery, run: Stage)
    requires run.Sending? && Counting(max, row, run) && Over(max, run.got)
    ensures Overwritten(row, run) == AfterRun(row, InOrder(run.got), max)
    ensures Tries(InOrder(run.got), max) == |run.got|
  {
    TriesOfReplies(run.got, 0, max);
  }

  lemma AnswerCounts(max: nat, row: Delivery, run: Stage, reply: Reply)
    requires run.Sending? && Counting(max, row, run) && !Over(max, run.got)
    ensures Counting(max, row, run.(got := run.got + [reply]))
  {
    var got := run.got + [reply];
    forall j | 0 <= j < |got| - 1 ensures !Ok(got[j]) {
      assert got[j] == run.got[j];
    }
  }

  lemma OrderlyStep(max: nat, s: State, a: Action)
    requires Orderly(max, s) && (a.Begin? ==> forall r: nat :: !Running(s, r))
    ensures Orderly(max, Step(max, s, a))
  {
    hide Counting, Over, Overwritten;
    var s' := Step(max, s, a);
    match a
    case Begin =>
      StartsCounting(max, s.row);
      forall r: nat | Running(s', r) ensures r == |s.runs| {
        assert !Running(s, r);
      }
    case Answer(r, reply) =>
      if Running(s, r) && !Over(max, s.runs[r].got) {
        AnswerCounts(max, s.row, s.runs[r], reply);
        forall q: nat | Running(s', q) ensures Running(s, q) {}
      }
    case Finalize(r) =>
      if Finalizes(max, s, a) {
        forall q: nat ensures !Running(s', q) {
          assert Running(s, q) ==> q == r;
        }
      }
  }

  lemma StartsCounting(max: nat, row: Delivery)
    ensures Counting(max, row, Sending(row, []))
  {
  }

  /** Runs that do not overlap make a serial history: the row is what one delivery and its redeliveries, one
      after the other, leave, and no POST is lost. */
  lemma {:induction false} OneAtATimeIsSerial(max: nat, d: Delivery, actions: seq<Action>)
    returns (history: seq<nat -> Reply>)
    requires OneAtATime(max, d, actions)
    ensures var s := Run(max, d, actions);
      && Orderly(max, s) && Books(s)
      && s.row == AfterRuns(d, history, max)
      && s.made == d.attempts + TotalTries(history, max) + Unwritten(s.runs)
  {
    history := [];
    if actions != [] {
      var n := |actions| - 1;
      var front, a := actions[..n], actions[n];
      forall i | 0 <= i <= n ensures front[..i] == actions[..i] {}
      assert front[..n] == front;
      history := OneAtATimeIsSerial(max, d, front);
      var s := Run(max, d, front);
      OrderlyStep(max, s, a);
      StepUnbalancesIff(max, s, a);
      RetryAccounting(d, history, max);
      if Finalizes(max, s, a) {
        OutcomeIsAfterRun(max, s.row, s.runs[a.run]);
        var replies := InOrder(s.runs[a.run].got);
        assert (history + [replies])[..|history|] == history;
        history := history + [replies];
        RetryAccounting(d, history, max);
      }
    }
  }

  // ── Overlapping runs ───────────────────────────────────────────────────────

  lemma {:induction false} NoMoreThanAllowed(max: nat, d: Delivery, actions: seq<Action>, r: nat)
    requires Running(Run(max, d, actions), r)
    ensures |Run(max, d, actions).runs[r].got| <= max
  {
    if actions != [] {
      var front, a := actions[..|actions| - 1], actions[|actions| - 1];
      if Running(Run(max, d, front), r) {
        NoMoreThanAllowed(max, d, front, r);
      }
    }
  }

  /** In every history: of two runs that read the same count and have stopped, the one that writes first has
      all its POSTs lost once the other has written, which is none only where no attempts are allowed. */
  lemma OverlapLosesTheFirst(max: nat, d: Delivery, actions: seq<Action>, i: nat, j: nat)
    requires var s := Run(max, d, actions);
      && Books(s) && i != j && Running(s, i) && Running(s, j)
      && Over(max, s.runs[i].got) && Over(max, s.runs[j].got)
      && s.runs[i].snapshot.attempts == s.runs[j].snapshot.attempts == s.row.attempts
    ensures var s := Run(max, d, actions);
      var after := Step(max, Step(max, s, Finalize(i)), Finalize(j));
      Lost(after) == |s.runs[i].got| && (Books(after) <==> max == 0)
  {
    hide Run;
    var s := Run(max, d, actions);
    var mid := Step(max, s, Finalize(i));
    NoMoreThanAllowed(max, d, actions, i);
    StepLoses(max, s, Finalize(i));
    StepLoses(max, mid, Finalize(j));
    assert mid.runs[j] == s.runs[j] && mid.row.attempts == s.row.attempts + |s.runs[i].got|;
  }

  lemma RunAppend(max: nat, d: Delivery, actions: seq<Action>, a: Action)
    ensures Run(max, d, actions + [a]) == Step(max, Run(max, d, actions), a)
  {
    assert (actions + [a])[..|actions|] == actions;
  }

  /** Such a history exists for every delivery: redelivered twice at once, both POSTs answered 200, and the
      row counts one of the two. */
  lemma TwoRedeliveriesCountOne(max: nat, d: Delivery) returns (actions: seq<Action>)
    requires max >= 1
    ensures var s := Run(max, d, actions);
      && (forall r: nat :: !Running(s, r)) && s.made == d.attempts + 2 && s.row.attempts == d.attempts + 1
  {
    hide Run;
    var ok := Response(200);
    var unsent, sent := Sending(d, []), Sending(d, [ok]);
    RunStart(max, d);
    RunAppend(max, d, [], Begin);
    actions := [] + [Begin];
    RunAppend(max, d, actions, Begin);
    actions := actions + [Begin];
    assert Run(max, d, actions) == State(d, d.attempts, [unsent, unsent]);
    RunAppend(max, d, actions, Answer(0, ok));
    actions := actions + [Answer(0, ok)];
    assert unsent.got + [ok] == [ok] && Run(max, d, actions) == State(d, d.attempts + 1, [sent, unsent]);
    RunAppend(max, d, actions, Answer(1, ok));
    actions := actions + [Answer(1, ok)];
    assert Run(max, d, actions) == State(d, d.attempts + 2, [sent, sent]);
    RunAppend(max, d, actions, Finalize(0));
    actions := actions + [Finalize(0)];
    assert Run(max, d, actions).runs == [Ended, sent];
    RunAppend(max, d, actions, Finalize(1));
    actions := actions + [Finalize(1)];
    assert Run(max, d, actions).runs == [Ended, Ended];
  }

  lemma RunStart(max: nat, d: Delivery)
    ensures Run(max, d, []) == State(d, d.attempts, [])
  {
  }
}
