/** handleEvent: one delivery per subscribed endpoint, all targets proceeding side by side. */
module FanOut {
  import opened Wrappers
  import opened Intents
  import opened Webhooks

  predicate Subscribed(e: Endpoint, consumer: string, kind: EventKind) {
    e.enabled && e.consumer == consumer && (e.eventTypes == [] || kind in e.eventTypes)
  }

  function Targets(endpoints: map<string, Endpoint>, consumer: string, kind: EventKind): set<string> {
    set id | id in endpoints && Subscribed(endpoints[id], consumer, kind)
  }

  /** How far the delivery to one target has come: its row, and the replies its POSTs got. */
  datatype Stage = Unstarted | Posting(id: string, got: seq<Reply>) | Finished(id: string, got: seq<Reply>)

  datatype State = State(deliveries: map<string, Delivery>, stages: map<string, Stage>)

  /** The event being handled: its kind, the id drawn for it, and the body built from it. */
  datatype Job = Job(kind: EventKind, eventId: string, body: string)

  /** One target moves on: its row is created under a new id, or one POST is answered. */
  datatype Move = Move(endpointId: string, id: string, reply: Reply)

  function Step(max: nat, job: Job, s: State, m: Move): State {
    if m.endpointId !in s.stages then s else
    match s.stages[m.endpointId]
    case Unstarted =>
      if m.id in s.deliveries then s
      else s.(deliveries := s.deliveries[m.id := NewDelivery(m.endpointId, job.kind, job.eventId, job.body, m.id)],
              stages := s.stages[m.endpointId := Posting(m.id, [])])
    case Posting(id, got) =>
      if id !in s.deliveries then s
      else if |got| == max then Finish(s, m.endpointId, id, got)
      else if Ok(m.reply) || |got| + 1 == max then Finish(s, m.endpointId, id, got + [m.reply])
      else s.(stages := s.stages[m.endpointId := Posting(id, got + [m.reply])])
    case Finished(_, _) => s
  }

  function Finish(s: State, endpointId: string, id: string, got: seq<Reply>): State
    requires id in s.deliveries
  {
    var last := if got == [] then None else Some(got[|got| - 1]);
    s.(deliveries := s.deliveries[id := Recorded(s.deliveries[id], last, |got|)],
       stages := s.stages[endpointId := Finished(id, got)])
  }

  function Start(endpoints: map<string, Endpoint>, consumer: string, kind: EventKind,
                 deliveries: map<string, Delivery>): State {
    State(deliveries, map id | id in Targets(endpoints, consumer, kind) :: Unstarted)
  }

  function Run(max: nat, job: Job, s: State, moves: seq<Move>): State {
    if moves == [] then s else Step(max, job, Run(max, job, s, moves[..|moves| - 1]), moves[|moves| - 1])
  }

  /** A delivery of this event to this endpoint. */
  predicate IsFor(d: Delivery, job: Job, endpointId: string) { d.eventId == job.eventId && d.endpointId == endpointId }

  /** The row of a started target, as far as it has come: a finished one is what the retry loop would
      have left had it run alone on the replies this target got. */
  ghost predicate RowMatches(max: nat, job: Job, d: Delivery, endpointId: string, stage: Stage) {
    match stage
    case Unstarted => false
    case Posting(id, got) =>
      && d == NewDelivery(endpointId, job.kind, job.eventId, job.body, id)
      && |got| <= max && (|got| == max ==> max == 0) && forall i | 0 <= i < |got| :: !Ok(got[i])
    case Finished(id, got) =>
      && d == AfterRun(NewDelivery(endpointId, job.kind, job.eventId, job.body, id), InOrder(got), max)
      && |got| == Tries(InOrder(got), max)
  }

  lemma FinishMatches(max: nat, job: Job, s: State, e: string, id: string, got: seq<Reply>)
    requires id in s.deliveries && s.deliveries[id] == NewDelivery(e, job.kind, job.eventId, job.body, id)
    requires |got| <= max && forall j | 0 <= j < |got| - 1 :: !Ok(got[j])
    requires |got| == max || (|got| > 0 && Ok(got[|got| - 1]))
    ensures RowMatches(max, job, Finish(s, e, id, got).deliveries[id], e, Finished(id, got))
  {
    TriesOfReplies(got, 0, max);
  }

  /** A started target has its own new row, as far along as its stage says. */
  ghost predicate Owns(max: nat, job: Job, before: map<string, Delivery>, s: State, e: string)
    requires e in s.stages
  {
    !s.stages[e].Unstarted? ==>
      var id := s.stages[e].id;
      id in s.deliveries && id !in before && RowMatches(max, job, s.deliveries[id], e, s.stages[e])
  }

  ghost predicate OwnedBy(s: State, id: string, e: string) {
    e in s.stages && !s.stages[e].Unstarted? && s.stages[e].id == id
  }

  ghost predicate Inv(max: nat, job: Job, before: map<string, Delivery>, targets: set<string>, s: State) {
    && s.stages.Keys == targets
    && (forall id | id in before :: id in s.deliveries && s.deliveries[id] == before[id])
    && (forall id | id in s.deliveries && id !in before :: exists e :: OwnedBy(s, id, e))
    && forall e | e in targets :: Owns(max, job, before, s, e)
  }

  /** What a step does to the rest: at most one row and one stage, that of the target that moved. */
  lemma StepIsLocal(max: nat, job: Job, before: map<string, Delivery>, targets: set<string>, s: State, m: Move)
    requires Inv(max, job, before, targets, s)
    ensures var s' := Step(max, job, s, m);
      && s'.stages.Keys == targets
      && (forall e | e in targets && e != m.endpointId :: s'.stages[e] == s.stages[e])
      && (m.endpointId in targets ==> Owns(max, job, before, s', m.endpointId))
      && (s' == s || (m.endpointId in targets && !s'.stages[m.endpointId].Unstarted?
                      && s'.deliveries
                          == s.deliveries[s'.stages[m.endpointId].id := s'.deliveries[s'.stages[m.endpointId].id]]
                      && s'.stages[m.endpointId].id !in before
                      && (s.stages[m.endpointId].Unstarted? ==> s'.stages[m.endpointId].id !in s.deliveries)
                      && (!s.stages[m.endpointId].Unstarted?
                          ==> s.stages[m.endpointId].id == s'.stages[m.endpointId].id)))
  {
    if m.endpointId in targets {
      assert Owns(max, job, before, s, m.endpointId);
      var stage := s.stages[m.endpointId];
      if stage.Posting? {
        if |stage.got| == max {
          FinishMatches(max, job, s, m.endpointId, stage.id, stage.got);
        } else if Ok(m.reply) || |stage.got| + 1 == max {
          FinishMatches(max, job, s, m.endpointId, stage.id, stage.got + [m.reply]);
        }
      }
    }
  }

  /** Started targets have rows of their own. */
  lemma OwnRows(max: nat, job: Job, before: map<string, Delivery>, s: State, e: string, f: string)
    requires e in s.stages && f in s.stages && Owns(max, job, before, s, e) && Owns(max, job, before, s, f)
    requires e != f && !s.stages[e].Unstarted? && !s.stages[f].Unstarted?
    ensures s.stages[e].id != s.stages[f].id
  {
  }

  lemma OwnsStable(max: nat, job: Job, before: map<string, Delivery>, s: State, s': State, e: string, id: string)
    requires e in s.stages && e in s'.stages && s'.stages[e] == s.stages[e] && Owns(max, job, before, s, e)
    requires id in s'.deliveries && s'.deliveries == s.deliveries[id := s'.deliveries[id]]
    requires !s.stages[e].Unstarted? ==> s.stages[e].id != id
    ensures Owns(max, job, before, s', e)
  {
  }

  lemma StepKeepsInv(max: nat, job: Job, before: map<string, Delivery>, targets: set<string>, s: State, m: Move)
    requires Inv(max, job, before, targets, s)
    ensures Inv(max, job, before, targets, Step(max, job, s, m))
  {
    hide Step, Owns;
    StepIsLocal(max, job, before, targets, s, m);
    var s' := Step(max, job, s, m);
    if s' != s {
      var moved := s'.stages[m.endpointId].id;
      forall id | id in s'.deliveries && id !in before ensures exists e :: OwnedBy(s', id, e) {
        if id == moved {
          assert OwnedBy(s', id, m.endpointId);
        } else {
          var e :| OwnedBy(s, id, e);
          assert OwnedBy(s', id, e);
        }
      }
      forall e | e in targets ensures Owns(max, job, before, s', e) {
        if e != m.endpointId {
          MovedAway(max, job, before, s, s', m, e);
        }
      }
    }
  }

  /** The row that moved is not that of another target. */
  lemma MovedAway(max: nat, job: Job, before: map<string, Delivery>, s: State, s': State, m: Move, e: string)
    requires m.endpointId in s.stages && m.endpointId in s'.stages && !s'.stages[m.endpointId].Unstarted?
    requires e in s.stages && e in s'.stages && e != m.endpointId && s'.stages[e] == s.stages[e]
    requires Owns(max, job, before, s, e) && Owns(max, job, before, s, m.endpointId)
    requires var id := s'.stages[m.endpointId].id;
      && id in s'.deliveries && s'.deliveries == s.deliveries[id := s'.deliveries[id]]
      && (if s.stages[m.endpointId].Unstarted? then id !in s.deliveries else id == s.stages[m.endpointId].id)
    ensures Owns(max, job, before, s', e)
  {
    if !s.stages[e].Unstarted? && !s.stages[m.endpointId].Unstarted? {
      OwnRows(max, job, before, s, e, m.endpointId);
    }
    OwnsStable(max, job, before, s, s', e, s'.stages[m.endpointId].id);
  }

  lemma {:induction false} RunKeepsInv(max: nat, job: Job, before: map<string, Delivery>, targets: set<string>,
                                       s: State, moves: seq<Move>)
    requires Inv(max, job, before, targets, s)
    ensures Inv(max, job, before, targets, Run(max, job, s, moves))
  {
    if moves != [] {
      RunKeepsInv(max, job, before, targets, s, moves[..|moves| - 1]);
      StepKeepsInv(max, job, before, targets, Run(max, job, s, moves[..|moves| - 1]), moves[|moves| - 1]);
    }
  }

  ghost predicate AllFinished(s: State) { forall e | e in s.stages :: s.stages[e].Finished? }

  /** Fan-out is exact, whatever the order in which the targets proceed and however their POSTs end: once
      all are finished, an endpoint has exactly one delivery of the event if it is enabled, owned by the
      event's consumer and subscribed, and none otherwise; each is settled, and earlier rows are untouched. */
  lemma FanOutExact(max: nat, job: Job, endpoints: map<string, Endpoint>, consumer: string,
                    before: map<string, Delivery>,
                    moves: seq<Move>, e: string)
    requires forall id | id in before :: before[id].eventId != job.eventId
    requires var s := Run(max, job, Start(endpoints, consumer, job.kind, before), moves); AllFinished(s)
    ensures var after := Run(max, job, Start(endpoints, consumer, job.kind, before), moves).deliveries;
      && (forall id | id in before :: id in after && after[id] == before[id])
      && (if e in endpoints && endpoints[e].enabled && endpoints[e].consumer == consumer
             && (endpoints[e].eventTypes == [] || job.kind in endpoints[e].eventTypes)
          then exists id :: id in after && after[id].id == id && Completed(max, job, after[id], e)
                 && forall other | other in after && IsFor(after[other], job, e) :: other == id
          else forall id | id in after :: !IsFor(after[id], job, e))
  {
    var start := Start(endpoints, consumer, job.kind, before);
    var targets := Targets(endpoints, consumer, job.kind);
    RunKeepsInv(max, job, before, targets, start, moves);
    var s := Run(max, job, start, moves);
    forall other | other in s.deliveries && IsFor(s.deliveries[other], job, e) ensures OwnedBy(s, other, e) {
      RowsAreOwned(max, job, before, targets, s, other, e);
    }
    if e in targets {
      TargetIsSettled(max, job, before, targets, s, e);
    }
  }

  lemma RowsAreOwned(max: nat, job: Job, before: map<string, Delivery>, targets: set<string>, s: State, id: string,
                     e: string)
    requires Inv(max, job, before, targets, s) && id in s.deliveries && IsFor(s.deliveries[id], job, e)
    requires forall id | id in before :: before[id].eventId != job.eventId
    ensures OwnedBy(s, id, e)
  {
    var f :| OwnedBy(s, id, f);
    assert Owns(max, job, before, s, f);
  }

  lemma TargetIsSettled(max: nat, job: Job, before: map<string, Delivery>, targets: set<string>, s: State, e: string)
    requires Inv(max, job, before, targets, s) && e in targets && s.stages[e].Finished?
    ensures s.stages[e].id in s.deliveries && Completed(max, job, s.deliveries[s.stages[e].id], e)
  {
    assert Owns(max, job, before, s, e);
    var stage := s.stages[e];
    assert IsRunOf(max, job, s.deliveries[stage.id], e, stage.id, InOrder(stage.got));
  }

  /** A row of this event and its body for this endpoint, as some run of the retry loop leaves it. */
  ghost predicate Completed(max: nat, job: Job, d: Delivery, endpointId: string) {
    && IsFor(d, job, endpointId) && d.eventKind == job.kind && d.body == job.body
    && exists id, replies :: IsRunOf(max, job, d, endpointId, id, replies)
  }

  predicate IsRunOf(max: nat, job: Job, d: Delivery, endpointId: string, id: string, replies: nat -> Reply) {
    d == AfterRun(NewDelivery(endpointId, job.kind, job.eventId, job.body, id), replies, max)
  }

  /** No endpoint of another consumer ever gets a delivery of the event, finished or not. */
  lemma OthersGetNothing(max: nat, job: Job, endpoints: map<string, Endpoint>, consumer: string,
                         before: map<string, Delivery>, moves: seq<Move>, id: string)
    requires forall i | i in before :: before[i].eventId != job.eventId
    requires var after := Run(max, job, Start(endpoints, consumer, job.kind, before), moves).deliveries;
      id in after && after[id].eventId == job.eventId
    ensures var d := Run(max, job, Start(endpoints, consumer, job.kind, before), moves).deliveries[id];
      d.endpointId in endpoints && endpoints[d.endpointId].consumer == consumer
  {
    hide Run;
    var targets := Targets(endpoints, consumer, job.kind);
    var start := Start(endpoints, consumer, job.kind, before);
    RunKeepsInv(max, job, before, targets, start, moves);
    var s := Run(max, job, start, moves);
    RowsAreOwned(max, job, before, targets, s, id, s.deliveries[id].endpointId);
  }

  /** Until the run on it has ended, a delivery is waiting and counts no attempts, however many POSTs were made. */
  lemma UnfinishedIsWaiting(max: nat, job: Job, endpoints: map<string, Endpoint>, consumer: string,
                            before: map<string, Delivery>, moves: seq<Move>, id: string)
    requires forall i | i in before :: before[i].eventId != job.eventId
    requires var after := Run(max, job, Start(endpoints, consumer, job.kind, before), moves).deliveries;
      id in after && after[id].eventId == job.eventId
    ensures var s := Run(max, job, Start(endpoints, consumer, job.kind, before), moves);
      var d := s.deliveries[id];
      && d.endpointId in s.stages
      && (s.stages[d.endpointId].Finished? ||
          (d.status == WAITING && d.attempts == 0 && d.responseStatus == None && d.error == None))
  {
    hide Run, AfterRun;
    var targets := Targets(endpoints, consumer, job.kind);
    var start := Start(endpoints, consumer, job.kind, before);
    RunKeepsInv(max, job, before, targets, start, moves);
    var s := Run(max, job, start, moves);
    RowsAreOwned(max, job, before, targets, s, id, s.deliveries[id].endpointId);
    assert Owns(max, job, before, s, s.deliveries[id].endpointId);
  }
}
