/** Overdue rows drain, whatever requests come in between and whichever rows the unordered query returns. */
module Expiry {
  import opened Wrappers
  import opened Intents
  import opened Verifier
  import opened Lifecycle
  import opened Settlement
  import opened Cycles

  // ── Counting ───────────────────────────────────────────────────────────────

  lemma {:induction false} DistinctCount(ids: seq<string>, s: set<string>)
    requires Distinct(ids) && forall id | id in ids :: id in s
    ensures |s - (set id | id in ids)| == |s| - |ids|
  {
    if ids == [] {
      assert s - (set id | id in ids) == s;
    } else {
      var front, last := ids[..|ids| - 1], ids[|ids| - 1];
      DistinctCount(front, s);
      assert s - (set id | id in ids) == s - (set id | id in front) - {last};
    }
  }

  lemma {:induction false} SubsetCount(a: set<string>, b: set<string>)
    requires a <= b
    ensures |a| <= |b|
  {
    if a != {} {
      var x :| x in a;
      SubsetCount(a - {x}, b - {x});
    }
  }

  /** What n full batches hold. */
  function Capacity(n: nat, batchSize: nat): nat { n * batchSize }

  lemma OneMoreBatch(n: nat, batchSize: nat)
    ensures Capacity(n + 1, batchSize) == Capacity(n, batchSize) + batchSize
    ensures Capacity(0, batchSize) == 0
  {
  }

  // ── What a cycle still has in hand ─────────────────────────────────────────

  /** The rows a process has read as overdue and is still to mark expired. */
  function InHand(q: Process): set<string> {
    match q
    case WriteExpired(batch) => IdsOf(batch)
    case Emit(_, next) => InHand(next)
    case _ => {}
  }

  function IdsOf(rows: seq<Intent>): set<string> { set i | 0 <= i < |rows| :: rows[i].id }

  ghost predicate Idle(ps: seq<Process>, id: string) { forall r | 0 <= r < |ps| :: id !in InHand(ps[r]) }

  ghost function OverdueNow(s: System): set<string> { OverdueIds(s.table, s.clock) }

  /** The overdue rows no cycle is about to mark. */
  ghost function Left(s: System): set<string> {
    set id | id in OverdueNow(s) && Idle(s.processes, id)
  }

  lemma {:induction false} InHandInCycle(q: Process)
    ensures InHand(q) != {} ==> InCycle(q)
  {
    if q.Emit? {
      InHandInCycle(q.next);
    }
  }

  lemma InHandOfNext(rows: seq<Intent>)
    ensures InHand(NextExpired(rows)) == IdsOf(rows)
  {
  }

  /** Marking a row takes it off the overdue ones: the call cannot run into the hash constraint. */
  lemma MarkedIsNotOverdue(s: System, q: Process)
    requires Inv(s) && q.WriteExpired? && q.batch != []
    ensures q.batch[0].id !in OverdueIds(Updating(s, q).table, s.clock)
    ensures InHand(Updating(s, q).next) == IdsOf(q.batch[1..])
  {
    hide NextExpired, UniqueKeys, UniqueHashes, WellFormedRow;
    InHandOfNext(q.batch[1..]);
    var id := q.batch[0].id;
    if id in s.table {
      HashKept(s.table, id);
      assert s.table[id].id == id;
      assert InHand(Emit(Announcement(q, Lapsed(s.table[id])), NextExpired(q.batch[1..])))
          == InHand(NextExpired(q.batch[1..]));
    }
  }

  /** A row in hand stays in hand until it is no longer overdue, as long as marking does not fail. */
  lemma InHandKept(c: Config, s: System, q: Process, choice: Choice, id: string)
    requires Inv(s) && Enabled(c, s, q, choice) && id in InHand(q)
    requires choice.Fail? && q.WriteExpired? ==> id in InHand(AfterFailure(q))
    ensures var e := Move(c, s, q, choice); id in InHand(e.next) || id !in OverdueIds(e.table, s.clock)
  {
    hide Inv, Updating, OverdueIds, AnyBatch, OldestBatch;
    if q.WriteExpired? && !choice.Fail? {
      MarkedIsNotOverdue(s, q);
      var i :| 0 <= i < |q.batch| && q.batch[i].id == id;
      if i > 0 {
        assert q.batch[1..][i - 1].id == id;
      }
    }
  }

  // ── One step ───────────────────────────────────────────────────────────────

  /** A process reads the overdue rows of its cycle. */
  ghost predicate Sweeps(c: Config, s: System, action: Action) {
    && action.Advance? && action.choice.Batch? && action.p < |s.processes|
    && s.processes[action.p].QueryOverdue? && Enabled(c, s, s.processes[action.p], action.choice)
  }

  /** Marking a row fails. */
  predicate FailsToMark(s: System, action: Action) {
    action.Advance? && action.choice.Fail? && action.p < |s.processes| && s.processes[action.p].WriteExpired?
  }

  lemma RowsIds(t: Table, ids: seq<string>)
    requires Keyed(t) && forall id | id in ids :: id in t
    ensures IdsOf(Rows(t, ids)) == set id | id in ids
  {
    forall id | id in ids ensures id in IdsOf(Rows(t, ids)) {
      var i :| 0 <= i < |ids| && ids[i] == id;
      assert Rows(t, ids)[i].id == id;
    }
    forall id | id in IdsOf(Rows(t, ids)) ensures id in ids {
      var i :| 0 <= i < |ids| && Rows(t, ids)[i].id == id;
      assert ids[i] in ids;
    }
  }

  lemma NothingInHand(s: System, p: nat)
    requires OneCycle(s) && p < |s.processes| && s.processes[p].QueryOverdue?
    ensures forall id :: Idle(s.processes, id)
    ensures Left(s) == OverdueNow(s)
  {
    hide OverdueNow;
    forall id, r | 0 <= r < |s.processes| ensures id !in InHand(s.processes[r]) {
      InHandInCycle(s.processes[r]);
      assert InCycle(s.processes[p]);
    }
  }

  /** The query takes a full batch in hand, whichever rows it returns. */
  lemma SweepTakesBatch(c: Config, s: System, action: Action)
    requires Inv(s) && OneCycle(s) && Sweeps(c, s, action)
    ensures |Left(Step(c, s, action))| == |Left(s)| - Min(c.batchSize, |Left(s)|)
  {
    hide Inv, OneCycle, OverdueIds, NextExpired, WriteMove;
    var p, ids, s' := action.p, action.choice.ids, Step(c, s, action);
    var rows := Rows(s.table, ids);
    NothingInHand(s, p);
    InHandOfNext(rows);
    KeyedInv(s);
    RowsIds(s.table, ids);
    assert s'.processes == s.processes[p := NextExpired(rows)];
    forall id ensures Idle(s'.processes, id) <==> id !in ids {
      assert Idle(s.processes, id) && s'.processes[p] == NextExpired(rows);
      forall r | 0 <= r < |s.processes| && r != p ensures s'.processes[r] == s.processes[r] {}
    }
    assert Left(s') == OverdueNow(s) - (set id | id in ids);
    DistinctCount(ids, OverdueNow(s));
  }

  lemma KeyedInv(s: System)
    requires Inv(s)
    ensures Keyed(s.table)
  {
  }

  /** A failing mark drops the row it was for, and no other. */
  lemma FailureDropsOne(q: Process, id: string)
    requires q.WriteExpired? && id in InHand(q) && (q.batch != [] ==> id != q.batch[0].id)
    ensures id in InHand(AfterFailure(q))
  {
    hide NextExpired;
    InHandOfNext(q.batch[1..]);
    var i :| 0 <= i < |q.batch| && q.batch[i].id == id;
    assert q.batch[1..][i - 1].id == id;
  }

  lemma HandedOn(c: Config, s: System, action: Action, r: nat, id: string)
    requires Inv(s) && r < |s.processes| && id in InHand(s.processes[r])
    requires FailsToMark(s, action) ==> id !in FailedRow(s, action)
    ensures var s' := Step(c, s, action); r < |s'.processes| && (id in InHand(s'.processes[r]) || id !in OverdueNow(s'))
  {
    hide Inv, Enabled, Move, OverdueIds;
    if FailsToMark(s, action) && action.p == r {
      FailureDropsOne(s.processes[r], id);
    }
    if action.Advance? && action.p == r && Enabled(c, s, s.processes[r], action.choice) {
      InHandKept(c, s, s.processes[r], action.choice, id);
    }
  }

  /** The rows a step newly makes overdue, and the row whose mark fails. */
  ghost function Added(c: Config, s: System, action: Action): set<string> {
    (OverdueNow(Step(c, s, action)) - OverdueNow(s)) + if FailsToMark(s, action) then FailedRow(s, action) else {}
  }

  function FailedRow(s: System, action: Action): set<string>
    requires FailsToMark(s, action)
  {
    var batch := s.processes[action.p].batch;
    if batch == [] then {} else {batch[0].id}
  }

  /** No other step leaves more to do than it adds. */
  lemma OthersLeaveNoMore(c: Config, s: System, action: Action)
    requires Inv(s)
    ensures Left(Step(c, s, action)) <= Left(s) + Added(c, s, action)
  {
    hide Inv, Step, OverdueIds, InHand;
    forall id | id in Left(Step(c, s, action)) && id !in Added(c, s, action) ensures Idle(s.processes, id) {
      forall r | 0 <= r < |s.processes| ensures id !in InHand(s.processes[r]) {
        if id in InHand(s.processes[r]) {
          HandedOn(c, s, action, r, id);
        }
      }
    }
  }

  /** A row newly falls due only as time passes, when it is created past its lifetime, or when a PATCH
      reopens it: validation, removal and the observer never make one overdue. */
  lemma FallsDueOnlyBy(c: Config, s: System, action: Action, id: string)
    requires Inv(s) && id in OverdueNow(Step(c, s, action)) && id !in OverdueNow(s)
    ensures action.TimePasses? || (
        && action.Advance? && action.p < |s.processes|
        && var q := s.processes[action.p];
          || (q.InsertRow? && action.choice == Fresh(id))
          || (q.WritePatch? && q.id == id && (q.patch.status == Some(PENDING) || q.patch.status == Some(SUBMITTED))))
  {
    hide ReadMove, AfterFailure, Updating, UniqueKeys, UniqueHashes, WellFormedRow, Sound, Backed;
    if action.Advance? && action.p < |s.processes| && Updates(s.processes[action.p]) {
      UpdateFallsDue(s, s.processes[action.p], id);
    }
  }

  /** A row that is overdue stays so until it is written: time does not go back, nor is a lifetime extended. */
  lemma OverdueStays(c: Config, s: System, action: Action, id: string)
    requires id in OverdueNow(s)
    requires var t := Step(c, s, action).table; id in t && t[id] == s.table[id]
    ensures id in OverdueNow(Step(c, s, action))
  {
    hide Move, Enabled;
  }

  lemma UpdateFallsDue(s: System, q: Process, id: string)
    requires Keyed(s.table) && Updates(q)
    requires id in OverdueIds(Updating(s, q).table, s.clock) && id !in OverdueNow(s)
    ensures q.WritePatch? && q.id == id && (q.patch.status == Some(PENDING) || q.patch.status == Some(SUBMITTED))
  {
    hide AfterFailure, Announcement, AfterUpdate, Marked, HashTaken;
    if Target(q) in s.table {
      TermsKept(q, s.table[Target(q)]);
    }
  }

  // ── Whole runs ─────────────────────────────────────────────────────────────

  /** How many sweeps a run starts from its from-th action on. */
  ghost function SweepCount(c: Config, actions: seq<Action>, from: nat): nat
    requires from <= |actions|
    decreases |actions|
  {
    if |actions| == from then 0
    else
      var front := actions[..|actions| - 1];
      SweepCount(c, front, from) + if Sweeps(c, Run(c, front), actions[|actions| - 1]) then 1 else 0
  }

  /** How many rows were added to what is left to do from its from-th action on. */
  ghost function AddedCount(c: Config, actions: seq<Action>, from: nat): nat
    requires from <= |actions|
    decreases |actions|
  {
    if |actions| == from then 0
    else
      var front := actions[..|actions| - 1];
      AddedCount(c, front, from) + |Added(c, Run(c, front), actions[|actions| - 1])|
  }

  /** A run up to here, from one point of it on: sweeps started, rows added, and rows left at that point. */
  ghost predicate Queue(c: Config, actions: seq<Action>, from: nat)
    requires from <= |actions|
  {
    |Left(Run(c, actions))| + Capacity(SweepCount(c, actions, from), c.batchSize)
      <= |Left(Run(c, actions[..from]))| + AddedCount(c, actions, from)
  }

  lemma SweepAddsNothing(c: Config, s: System, action: Action)
    requires Sweeps(c, s, action)
    ensures Added(c, s, action) == {}
  {
    hide OverdueIds, AnyBatch;
  }

  lemma UnionCount(a: set<string>, b: set<string>)
    ensures |a + b| <= |a| + |b|
  {
    assert |a + b| == |a| + |b| - |a * b|;
  }

  /** What a step does to the two sides of the bound. */
  lemma StepOfQueue(c: Config, s: System, action: Action)
    requires Inv(s) && OneCycle(s)
    ensures var left, left', added := |Left(s)|, |Left(Step(c, s, action))|, |Added(c, s, action)|;
      if Sweeps(c, s, action) then added == 0 && left' == left - Min(c.batchSize, left) else left' <= left + added
  {
    hide Sweeps, Left, Added, Inv, OneCycle, Step;
    if Sweeps(c, s, action) {
      SweepTakesBatch(c, s, action);
      SweepAddsNothing(c, s, action);
    } else {
      OthersLeaveNoMore(c, s, action);
      SubsetCount(Left(Step(c, s, action)), Left(s) + Added(c, s, action));
      UnionCount(Left(s), Added(c, s, action));
    }
  }

  lemma QueueStep(c: Config, actions: seq<Action>, from: nat)
    requires from < |actions| && Queue(c, actions[..|actions| - 1], from)
    ensures Queue(c, actions, from) || Left(Run(c, actions)) == {}
  {
    hide Run, Sweeps, Capacity, Left, Added, Inv, OneCycle, Step;
    var n := |actions| - 1;
    var front := actions[..n];
    assert front[..from] == actions[..from];
    RunKeepsInv(c, front);
    CyclesNeverOverlap(c, front);
    RunNext(c, actions);
    StepOfQueue(c, Run(c, front), actions[n]);
    OneMoreBatch(SweepCount(c, front, from), c.batchSize);
  }

  /** Interleaved, every run, from any point of it on: after n sweeps at most E + A - n * batchSize overdue rows
      are left to do, where E were left at that point and A were added since, by falling due or by a mark that
      failed; or there was a later point at which none was left, and the same bound counts from there. */
  lemma {:induction false} QueueBound(c: Config, actions: seq<Action>, from: nat) returns (since: nat)
    requires from <= |actions|
    ensures from <= since <= |actions| && Queue(c, actions, since)
    ensures since == from || Left(Run(c, actions[..since])) == {}
    decreases |actions|
  {
    hide Run, Left, Queue;
    since := |actions|;
    if |actions| == from {
      StartsQueue(c, actions);
    } else {
      var front := actions[..|actions| - 1];
      var earlier := QueueBound(c, front, from);
      assert front[..earlier] == actions[..earlier];
      QueueStep(c, actions, earlier);
      if Queue(c, actions, earlier) {
        since := earlier;
      } else {
        assert actions[..since] == actions;
        StartsQueue(c, actions);
      }
    }
  }

  lemma StartsQueue(c: Config, actions: seq<Action>)
    ensures Queue(c, actions, |actions|)
  {
    hide Run, Capacity, Left;
    OneMoreBatch(0, c.batchSize);
    assert actions[..|actions|] == actions;
  }

  // ── Draining ───────────────────────────────────────────────────────────────

  /** In this stretch of a run no step newly makes a row overdue, and marking a row never fails. */
  ghost predicate Draining(c: Config, actions: seq<Action>, from: nat) {
    forall i | from <= i < |actions| ::
      && OverdueNow(Run(c, actions[..i + 1])) <= OverdueNow(Run(c, actions[..i]))
      && !FailsToMark(Run(c, actions[..i]), actions[i])
  }

  lemma {:induction false} DrainingAddsNothing(c: Config, actions: seq<Action>, from: nat, since: nat)
    requires from <= since <= |actions| && Draining(c, actions, from)
    ensures AddedCount(c, actions, since) == 0
    ensures OverdueNow(Run(c, actions)) <= OverdueNow(Run(c, actions[..since]))
    decreases |actions|
  {
    hide Run, OverdueNow, FailsToMark;
    if |actions| == since {
      assert actions[..since] == actions;
    } else {
      var n := |actions| - 1;
      var front := actions[..n];
      forall i | 0 <= i <= n ensures front[..i] == actions[..i] {}
      DrainingAddsNothing(c, front, from, since);
      assert actions[..n + 1] == actions;
      RunNext(c, actions);
      assert Added(c, Run(c, front), actions[n]) == {};
    }
  }

  ghost predicate AtMost(left: nat, sweeps: nat, batchSize: nat, initially: nat) {
    left == 0 || left + Capacity(sweeps, batchSize) <= initially
  }

  /** In particular, with E overdue rows at some point, none falling due from then on and no mark failing, n
      sweeps leave at most E - n * batchSize of them to do. From the ceil(E / batchSize)-th sweep on every
      overdue row is in the hands of the cycle in flight, and once that has marked its rows none is left. */
  lemma OverdueDrains(c: Config, actions: seq<Action>, from: nat)
    requires from <= |actions| && Draining(c, actions, from)
    ensures var before, s, n := OverdueNow(Run(c, actions[..from])), Run(c, actions), SweepCount(c, actions, from);
      && OverdueNow(s) <= before
      && AtMost(|Left(s)|, n, c.batchSize, |before|)
      && (|before| <= Capacity(n, c.batchSize) ==> Left(s) == {})
      && (|before| <= Capacity(n, c.batchSize) && (forall id :: Idle(s.processes, id)) ==> OverdueNow(s) == {})
  {
    hide OverdueIds, Run, Capacity, FailsToMark, Idle;
    var since := QueueBound(c, actions, from);
    DrainingAddsNothing(c, actions, from, from);
    DrainingAddsNothing(c, actions, from, since);
    var start := Run(c, actions[..from]);
    SubsetCount(Left(start), OverdueNow(start));
  }
}
