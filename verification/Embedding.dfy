/** Every serial run is a run of the concurrent system, in which each operation's process is taken to its end
    before the next one arrives. */
module Embedding {
  import opened Wrappers
  import opened Intents
  import opened Verifier
  import opened Lifecycle
  import opened Settlement
  import opened Cycles
  import opened Schedules
  import S = Serial

  /** The world an operation runs in. */
  datatype World = World(clock: int, ledger: Ledger)

  /** The operation reads this clock and this ledger. */
  predicate RunsIn(c: Config, op: S.Operation, w: World) {
    match op
    case CreateOp(_, _, now, expiresAt, _) => now == w.clock && expiresAt == now + c.ttl
    case ValidateOp(ledger, _, _, _) => ledger == w.ledger
    case TickOp(ledger, cycle) => ledger == w.ledger && cycle.now == w.clock
    case _ => true
  }

  predicate Creates(op: S.Operation, id: string) { op.CreateOp? && op.id == id }

  /** Time does not run back, the ledger only grows, and the database draws no id twice. */
  ghost predicate InOneWorld(c: Config, ops: seq<S.Operation>, worlds: seq<World>) {
    && |worlds| == |ops|
    && (forall i | 0 <= i < |ops| ::
          RunsIn(c, ops[i], worlds[i]) && WellFormedLedger(worlds[i].ledger) && 0 <= worlds[i].clock)
    && (forall i | 0 < i < |ops| :: worlds[i - 1].clock <= worlds[i].clock && worlds[i - 1].ledger <= worlds[i].ledger)
    && forall i, j | 0 <= i < j < |ops| && ops[j].CreateOp? :: !Creates(ops[i], ops[j].id)
  }

  /** The request of an operation, and the script its process goes by. */
  function RequestOf(op: S.Operation): Process {
    match op
    case CreateOp(request, _, _, _, _) => FindKey(request)
    case PatchOp(consumer, id, patch) => AuthorizePatch(consumer, id, patch)
    case RemoveOp(consumer, id) => AuthorizeRemoval(consumer, id)
    case ValidateOp(_, consumer, id, txHash) => LoadIntent(consumer, id, txHash)
    case TickOp(_, _) => QueryOverdue
  }

  const NO_CYCLE := S.Cycle(0, [], {}, [], {})

  function ScriptOf(op: S.Operation): Script {
    match op
    case CreateOp(_, id, _, _, builds) => Script(id, builds, NO_CYCLE)
    case TickOp(_, cycle) => Script("", true, cycle)
    case _ => Script("", true, NO_CYCLE)
  }

  // ── The world moves on ─────────────────────────────────────────────────────

  lemma PrefixWellFormed(ledger: Ledger, n: nat)
    requires WellFormedLedger(ledger) && n <= |ledger|
    ensures WellFormedLedger(ledger[..n])
  {
  }

  lemma {:induction false} LedgerCatchesUp(c: Config, actions: seq<Action>, ledger: Ledger) returns (more: seq<Action>)
    requires Run(c, actions).ledger <= ledger && WellFormedLedger(ledger)
    ensures Run(c, more) == Run(c, actions).(ledger := ledger)
    decreases |ledger| - |Run(c, actions).ledger|
  {
    hide Run, WellFormedLedger;
    var s := Run(c, actions);
    var n := |s.ledger|;
    if n == |ledger| {
      more := actions;
    } else {
      var tx := ledger[n];
      assert s.ledger + [tx] == ledger[..n + 1];
      PrefixWellFormed(ledger, n + 1);
      Append(c, actions, LedgerGrows(tx));
      more := LedgerCatchesUp(c, actions + [LedgerGrows(tx)], ledger);
    }
  }

  lemma WorldMovesOn(c: Config, actions: seq<Action>, w: World) returns (more: seq<Action>)
    requires var s := Run(c, actions); s.clock <= w.clock && s.ledger <= w.ledger
    requires WellFormedLedger(w.ledger)
    ensures Run(c, more) == Run(c, actions).(clock := w.clock, ledger := w.ledger)
  {
    hide Run, WellFormedLedger;
    var pass := TimePasses(w.clock - Run(c, actions).clock);
    Append(c, actions, pass);
    more := LedgerCatchesUp(c, actions + [pass], w.ledger);
  }

  // ── One operation ──────────────────────────────────────────────────────────

  lemma {:induction false} SoloIsRun(c: Config, actions: seq<Action>, p: nat, choices: seq<Choice>)
    returns (more: seq<Action>)
    ensures Run(c, more) == Solo(c, Run(c, actions), p, choices)
    decreases |choices|
  {
    hide Step, Run;
    more := actions;
    if choices != [] {
      Append(c, actions, Advance(p, choices[0]));
      more := SoloIsRun(c, actions + [Advance(p, choices[0])], p, choices[1..]);
    }
  }

  /** What one process alone leaves as it was, but for the id it may bear. */
  ghost predicate Aside(s: System, s': System, p: nat, id: string) {
    && s'.ledger == s.ledger && s'.clock == s.clock && |s'.processes| == |s.processes|
    && (forall r | 0 <= r < |s.processes| && r != p :: s'.processes[r] == s.processes[r])
    && s'.born.Keys <= s.born.Keys + {id}
  }

  lemma StepAside(c: Config, s: System, p: nat, choice: Choice, k: Script)
    requires p < |s.processes| && (Enabled(c, s, s.processes[p], choice) ==> Allowed(s.processes[p], choice, k))
    ensures Aside(s, Step(c, s, Advance(p, choice)), p, k.id)
  {
    hide ReadMove, HashTaken, KeyTaken, AfterFailure, Rewritten, Announcement, AfterUpdate, Marked;
  }

  lemma {:induction false} SoloAside(c: Config, s: System, p: nat, choices: seq<Choice>, k: Script)
    requires p < |s.processes| && ByScript(c, s, p, choices, k)
    ensures Aside(s, Solo(c, s, p, choices), p, k.id)
    decreases |choices|
  {
    hide Step, Allowed, Enabled;
    if choices != [] {
      StepAside(c, s, p, choices[0], k);
      SoloAside(c, Step(c, s, Advance(p, choices[0])), p, choices[1..], k);
    }
  }

  lemma OperationFits(c: Config, s: System, op: S.Operation)
    requires S.Legal(c, StoreOf(s), op) && RunsIn(c, op, World(s.clock, s.ledger))
    requires op.CreateOp? ==> op.id !in s.born
    ensures Fits(c, s.clock, s.born, StoreOf(s), RequestOf(op), ScriptOf(op))
  {
  }

  /** The promise of an operation's process is the operation's serial effect. */
  lemma PromisedEffect(c: Config, s: System, op: S.Operation)
    requires S.Legal(c, StoreOf(s), op) && RunsIn(c, op, World(s.clock, s.ledger))
    ensures Promise(c, s.ledger, s.clock, StoreOf(s), RequestOf(op), ScriptOf(op)).store
        == S.EffectOf(c, StoreOf(s), op)
  {
    hide S.Create, S.PatchIntent, S.Remove, S.Validate, S.Tick, S.LegalCycle, ValidRequest;
  }

  /** All requests so far are done, and this is where the run stands. */
  ghost predicate AtRest(s: System, ids: set<string>) {
    (forall r | 0 <= r < |s.processes| :: s.processes[r].Done?) && s.born.Keys <= ids
  }

  lemma RestIsIdle(c: Config, actions: seq<Action>)
    requires forall r | 0 <= r < |Run(c, actions).processes| :: Run(c, actions).processes[r].Done?
    ensures !Run(c, actions).running
  {
    hide Run;
    CyclesNeverOverlap(c, actions);
  }

  lemma OperationArrives(c: Config, actions: seq<Action>, op: S.Operation) returns (more: seq<Action>)
    requires var s := Run(c, actions); !s.running && S.Legal(c, StoreOf(s), op)
    ensures var s, s' := Run(c, actions), Run(c, more);
      && s'.processes == s.processes + [RequestOf(op)] && s'.born == s.born
      && StoreOf(s') == StoreOf(s) && s'.clock == s.clock && s'.ledger == s.ledger
  {
    hide Run, S.LegalCycle, ValidRequest;
    var action := if op.TickOp? then TimerFires else Arrive(RequestOf(op));
    Append(c, actions, action);
    more := actions + [action];
  }

  lemma OperationRuns(c: Config, actions: seq<Action>, op: S.Operation, w: World, ids: set<string>)
    returns (more: seq<Action>)
    requires var s := Run(c, actions);
      && AtRest(s, ids) && s.clock <= w.clock && s.ledger <= w.ledger && S.Legal(c, StoreOf(s), op)
    requires RunsIn(c, op, w) && WellFormedLedger(w.ledger) && (op.CreateOp? ==> op.id !in ids)
    ensures var s, s' := Run(c, actions), Run(c, more);
      && StoreOf(s') == S.EffectOf(c, StoreOf(s), op) && s'.clock == w.clock && s'.ledger == w.ledger
      && AtRest(s', ids + {ScriptOf(op).id})
  {
    hide Run, Step, WellFormedLedger, S.Legal, S.EffectOf, RunsIn, Promise, Fits, Inv, Solo, ByScript, Allowed;
    var moved := WorldMovesOn(c, actions, w);
    RestIsIdle(c, moved);
    var arrived := OperationArrives(c, moved, op);
    var s, k := Run(c, arrived), ScriptOf(op);
    var p := |s.processes| - 1;
    RunKeepsInv(c, arrived);
    OperationFits(c, s, op);
    var choices := SoloCompletes(c, s, p, k);
    AloneIsPromised(c, s, p, choices, k);
    PromisedEffect(c, s, op);
    SoloAside(c, s, p, choices, k);
    more := SoloIsRun(c, arrived, p, choices);
    var s' := Run(c, more);
    forall r | 0 <= r < |s'.processes| ensures s'.processes[r].Done? {
      if r != p {
        assert s'.processes[r] == s.processes[r];
      }
    }
  }

  // ── Whole runs ─────────────────────────────────────────────────────────────

  function DrawnIds(ops: seq<S.Operation>): set<string> {
    {""} + set i | 0 <= i < |ops| && ops[i].CreateOp? :: ops[i].id
  }

  /** The empty id stands for "none drawn"; the database draws no such id. */
  ghost predicate DrawsIds(ops: seq<S.Operation>) { forall i | 0 <= i < |ops| && ops[i].CreateOp? :: ops[i].id != "" }

  lemma IdsGrow(ops: seq<S.Operation>)
    requires ops != []
    ensures DrawnIds(ops[..|ops| - 1]) + {ScriptOf(ops[|ops| - 1]).id} <= DrawnIds(ops)
  {
  }

  lemma IdIsNew(c: Config, ops: seq<S.Operation>, worlds: seq<World>)
    requires ops != [] && InOneWorld(c, ops, worlds) && DrawsIds(ops) && ops[|ops| - 1].CreateOp?
    ensures ops[|ops| - 1].id !in DrawnIds(ops[..|ops| - 1])
  {
    var n := |ops| - 1;
    forall i | 0 <= i < n && ops[i].CreateOp? ensures ops[i].id != ops[n].id {
      assert !Creates(ops[i], ops[n].id);
    }
  }

  /** Every serial run in one world is a run of the concurrent system: some list of actions leads through its
      operations to the same table and the same event log, with every process done. */
  lemma {:induction false} SerialRunsAreRuns(c: Config, ops: seq<S.Operation>, stores: seq<S.Store>, worlds: seq<World>)
    returns (actions: seq<Action>)
    requires S.SerialRun(c, ops, stores) && InOneWorld(c, ops, worlds) && DrawsIds(ops)
    ensures var s := Run(c, actions);
      && StoreOf(s) == stores[|ops|] && AtRest(s, DrawnIds(ops))
      && (ops != [] ==> s.clock == worlds[|ops| - 1].clock && s.ledger == worlds[|ops| - 1].ledger)
      && (ops == [] ==> s == START)
    decreases |ops|
  {
    hide S.Legal, S.EffectOf, RunsIn, WellFormedLedger, Run;
    actions := [];
    if ops == [] {
      StartsEmpty(c);
    } else {
      var n := |ops| - 1;
      var front := SerialRunsAreRuns(c, ops[..n], stores[..n + 1], worlds[..n]);
      assert stores[..n + 1][n] == stores[n];
      if ops[n].CreateOp? {
        IdIsNew(c, ops, worlds);
      }
      actions := OperationRuns(c, front, ops[n], worlds[n], DrawnIds(ops[..n]));
      IdsGrow(ops);
    }
  }

  lemma StartsEmpty(c: Config)
    ensures Run(c, []) == START
  {
  }
}
