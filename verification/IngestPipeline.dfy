/** The ingest pipeline: the status table (packages/db/src/ingest-status.ts), the outbox
    publisher (packages/queue/src/publisher.ts) and the normalize worker
    (packages/queue/src/process.ts). Statements of any number of publishers, deliveries,
    redeliveries and failure marks interleave freely. Transactions read what is committed and hold
    a row from their first update of it on; so a status update is two steps, the read that the
    table judges and the write, and other transactions can commit between the two. */
module IngestPipeline {
  import opened Common

  const MAX_PUBLISH_ATTEMPTS: nat := 20

  datatype Status = Received | Queued | Processing | Processed | Failed

  predicate CanTransition(from: Status, to: Status) {
    match from
    case Received => to == Queued || to == Processing || to == Failed
    case Queued => to == Processing || to == Failed
    case Processing => to == Processed || to == Failed || to == Processing
    case Processed => to == Processed
    case Failed => to == Failed
  }

  datatype EventId = EventId(raw: string)
  datatype OutboxId = OutboxId(raw: string)
  /** A queue key: the digest of an outbox id. */
  datatype Key = Key(digest: string)
  type Digest = OutboxId -> Key

  datatype OutboxStatus = Pending | Published | PublishFailed

  datatype OutboxRow = OutboxRow(event: EventId, status: OutboxStatus, attempts: nat)

  datatype Entry = Entry(key: Key, event: EventId)

  /** Where an agent stands between its statements, and what it remembers: a publisher the row as it
      read it, an open transaction the event's status as it read it. */
  datatype Agent =
    | HasRead(id: OutboxId, event: EventId)
    | HasAdded(id: OutboxId, event: EventId)
    | Marking(id: OutboxId, event: EventId, seen: Option<Status>)
    | Opened(event: EventId)
    | Working(event: EventId, seen: Option<Status>)
    | Failing(event: EventId, seen: Option<Status>)

  predicate IsPublisher(agent: Agent) {
    agent.HasRead? || agent.HasAdded? || agent.Marking?
  }

  /** `everQueued` and `normalized` are history: every entry ever added to the queue, and every
      committed normalization in order. */
  datatype State = State(
    events: map<EventId, Status>, observations: multiset<EventId>, outbox: map<OutboxId, OutboxRow>,
    queue: map<Key, EventId>, agents: map<nat, Agent>, everQueued: set<Entry>, normalized: seq<EventId>)

  const Empty := State(map[], multiset{}, map[], map[], map[], {}, [])

  // ----- Status writes -----

  /** A write of `updateSourceEventStatus` that the table let through: the status read, the move it
      was judged by, and what is committed in the end. */
  datatype Write = Write(event: EventId, seen: Status, via: Status, to: Status)

  function SeenIn(events: map<EventId, Status>, e: EventId): Option<Status> {
    if e in events then Some(events[e]) else None
  }

  function Admitted(seen: Option<Status>, via: Status): bool {
    seen.Some? && CanTransition(seen.value, via)
  }

  /** The status an open transaction is about to write; a worker passes through `processing`, which
      nobody else ever sees. */
  function WriteBy(events: map<EventId, Status>, agent: Agent): Option<Write> {
    match agent
    case Marking(_, e, seen) =>
      if Admitted(seen, Queued) && e in events then Some(Write(e, seen.value, Queued, Queued)) else None
    case Failing(e, seen) =>
      if Admitted(seen, Failed) && e in events then Some(Write(e, seen.value, Failed, Failed)) else None
    case Working(e, seen) =>
      if Admitted(seen, Processing) && e in events then Some(Write(e, seen.value, Processing, Processed)) else None
    case _ => None
  }

  /** The update names the event and nothing else: it overwrites whatever status is stored by then. */
  function Stored(events: map<EventId, Status>, w: Option<Write>): map<EventId, Status> {
    if w.Some? then events[w.value.event := w.value.to] else events
  }

  // ----- Effects of single statements -----

  function AfterPublishFailure(row: OutboxRow): OutboxRow {
    row.(attempts := row.attempts + 1,
        status := if row.attempts + 1 >= MAX_PUBLISH_ATTEMPTS then PublishFailed else row.status)
  }

  function UpdateRow(s: State, id: OutboxId, row: OutboxRow): State {
    s.(outbox := s.outbox[id := row])
  }

  function MarkPublishFailed(s: State, id: OutboxId): State {
    if id in s.outbox then UpdateRow(s, id, AfterPublishFailure(s.outbox[id])) else s
  }

  function MarkPublished(s: State, id: OutboxId): State {
    if id in s.outbox then UpdateRow(s, id, s.outbox[id].(status := Published)) else s
  }

  /** Adding under a key that is still in the queue changes nothing. */
  function AddToQueue(s: State, k: Key, e: EventId): State {
    if k in s.queue then s else s.(queue := s.queue[k := e], everQueued := s.everQueued + {Entry(k, e)})
  }

  // ----- Protocol steps -----

  datatype StatusError = IllegalTransition
  datatype JobError = TenantInactive | EventMissing | Illegal | NormalizeFailed
  datatype JobStatus = DidProcess | Duplicate

  datatype Verdict = CloseProcessed | CloseFailed | CloseRetry

  datatype Step =
    | Ingest(e: EventId, id: OutboxId)
    | Read(p: nat, id: OutboxId)
    | Add(p: nat)
    | BeginMark(p: nat)
    | Mark(p: nat)
    | PublishFails(p: nat)
    | Open(p: nat, e: EventId, tenantActive: bool)
    | Check(p: nat)
    | Commit(p: nat, normalizes: bool)
    | BeginFail(p: nat, e: EventId)
    | Fail(p: nat)
    | Crash(p: nat)
    | RemoveEntry(k: Key)
    | ScheduledClose(id: OutboxId, verdict: Verdict)

  /** The outcome of the worker's transaction on an event when nothing interferes. */
  function JobResult(s: State, e: EventId, tenantActive: bool, normalizes: bool): Result<JobStatus, JobError> {
    if !tenantActive then Err(TenantInactive)
    else if e !in s.events then Err(EventMissing)
    else if s.events[e] == Processed then Ok(Duplicate)
    else if !CanTransition(s.events[e], Processing) then Err(Illegal)
    else if !normalizes then Err(NormalizeFailed)
    else Ok(DidProcess)
  }

  /** What the normalizer writes: an observation, unless the event already has one. */
  function Observe(s: State, e: EventId): State {
    if s.observations[e] > 0 then s
    else s.(observations := s.observations + multiset{e}, normalized := s.normalized + [e])
  }

  function WithAgent(s: State, p: nat, agent: Agent): State {
    s.(agents := s.agents[p := agent])
  }

  function Drop(s: State, p: nat): State {
    s.(agents := s.agents - {p})
  }

  /** The scheduled worker closes a job as processed only after its handler returned, which it does
      when the event has been normalized. */
  function CloseRow(s: State, id: OutboxId, verdict: Verdict): State {
    if id !in s.outbox || s.outbox[id].status != Pending then s
    else
      var row := s.outbox[id];
      match verdict
      case CloseProcessed => if s.observations[row.event] > 0 then UpdateRow(s, id, row.(status := Published)) else s
      case CloseFailed => UpdateRow(s, id, row.(status := PublishFailed, attempts := row.attempts + 1))
      case CloseRetry => UpdateRow(s, id, row.(attempts := row.attempts + 1))
  }

  function AddStep(digest: Digest, s: State, p: nat): State {
    if p in s.agents && s.agents[p].HasRead? then
      var agent := s.agents[p];
      WithAgent(AddToQueue(s, digest(agent.id), agent.event), p, HasAdded(agent.id, agent.event))
    else s
  }

  function BeginMarkStep(s: State, p: nat): State {
    if p in s.agents && s.agents[p].HasAdded? then
      var agent := s.agents[p];
      WithAgent(s, p, Marking(agent.id, agent.event, SeenIn(s.events, agent.event)))
    else s
  }

  /** The mark commits the row and, if the table let it, the status. */
  function MarkStep(s: State, p: nat): State {
    if p in s.agents && s.agents[p].Marking? then
      Drop(MarkPublished(s, s.agents[p].id).(events := Stored(s.events, WriteBy(s.events, s.agents[p]))), p)
    else s
  }

  /** The queue or the mark reported an error. An entry that landed although the queue
      reported an error is an `Add` followed by this step. */
  function PublishFailsStep(s: State, p: nat): State {
    if p in s.agents && IsPublisher(s.agents[p]) then Drop(MarkPublishFailed(s, s.agents[p].id), p) else s
  }

  /** The worker's second read of the status is the one that the table judges. */
  function CheckStep(s: State, p: nat): State {
    if p in s.agents && s.agents[p].Opened? then
      var seen := SeenIn(s.events, s.agents[p].event);
      if Admitted(seen, Processing) then WithAgent(s, p, Working(s.agents[p].event, seen)) else Drop(s, p)
    else s
  }

  function CommitStep(s: State, p: nat, normalizes: bool): State {
    if p in s.agents && s.agents[p].Working? then
      var w := WriteBy(s.events, s.agents[p]);
      Drop(if normalizes && w.Some? then Observe(s, w.value.event).(events := Stored(s.events, w)) else s, p)
    else s
  }

  function FailStep(s: State, p: nat): State {
    if p in s.agents && s.agents[p].Failing? then
      Drop(s.(events := Stored(s.events, WriteBy(s.events, s.agents[p]))), p)
    else s
  }

  /** A step that is not enabled changes nothing. */
  function Next(digest: Digest, s: State, a: Step): State {
    match a
    case Ingest(e, id) =>
      if e in s.events || id in s.outbox then s
      else s.(events := s.events[e := Received], outbox := s.outbox[id := OutboxRow(e, Pending, 0)])
    case Read(p, id) =>
      if id in s.outbox && s.outbox[id].status != Published then WithAgent(s, p, HasRead(id, s.outbox[id].event))
      else s
    case Add(p) => AddStep(digest, s, p)
    case BeginMark(p) => BeginMarkStep(s, p)
    case Mark(p) => MarkStep(s, p)
    case PublishFails(p) => PublishFailsStep(s, p)
    case Open(p, e, tenantActive) =>
      if tenantActive && e in s.events && s.events[e] != Processed then WithAgent(s, p, Opened(e)) else s
    case Check(p) => CheckStep(s, p)
    case Commit(p, normalizes) => CommitStep(s, p, normalizes)
    case BeginFail(p, e) => WithAgent(s, p, Failing(e, SeenIn(s.events, e)))
    case Fail(p) => FailStep(s, p)
    case Crash(p) => Drop(s, p)
    case RemoveEntry(k) => s.(queue := s.queue - {k})
    case ScheduledClose(id, verdict) => CloseRow(s, id, verdict)
  }

  function Run(digest: Digest, s: State, steps: seq<Step>): State {
    if steps == [] then s else Next(digest, Run(digest, s, steps[..|steps| - 1]), steps[|steps| - 1])
  }

  lemma {:induction false} RunSnoc(digest: Digest, s: State, steps: seq<Step>, a: Step)
    ensures Run(digest, s, steps + [a]) == Next(digest, Run(digest, s, steps), a)
  {
    assert (steps + [a])[..|steps|] == steps;
  }

  lemma {:induction false} RunTwo(digest: Digest, s: State, a: Step, b: Step)
    ensures Run(digest, s, [a] + [b]) == Next(digest, Next(digest, s, a), b)
  {
    assert [] + [a] == [a];
    RunSnoc(digest, s, [], a);
    RunSnoc(digest, s, [a], b);
  }

  lemma {:induction false} RunThree(digest: Digest, s: State, a: Step, b: Step, c: Step)
    ensures Run(digest, s, [a] + [b] + [c]) == Next(digest, Next(digest, Next(digest, s, a), b), c)
  {
    RunTwo(digest, s, a, b);
    RunSnoc(digest, s, [a] + [b], c);
  }

  ghost predicate Joined(digest: Digest, s: State, first: seq<Step>, more: seq<Step>) {
    Run(digest, s, first + more) == Run(digest, Run(digest, s, first), more)
  }

  lemma JoinOneMore(digest: Digest, s: State, first: seq<Step>, more: seq<Step>, a: Step)
    requires Joined(digest, s, first, more)
    ensures Joined(digest, s, first, more + [a])
  {
    RunSnoc(digest, s, first + more, a);
    RunSnoc(digest, Run(digest, s, first), more, a);
    assert first + (more + [a]) == first + more + [a];
  }

  lemma {:induction false} RunJoins(digest: Digest, s: State, first: seq<Step>, more: seq<Step>)
    ensures Joined(digest, s, first, more)
  {
    if more == [] {
      assert first + more == first;
    } else {
      RunJoins(digest, s, first, more[..|more| - 1]);
      JoinOneMore(digest, s, first, more[..|more| - 1], more[|more| - 1]);
      assert more == more[..|more| - 1] + [more[|more| - 1]];
    }
  }

  function Waiting(e: EventId, id: OutboxId, attempts: nat): State {
    Empty.(events := map[e := Received], outbox := map[id := OutboxRow(e, Pending, attempts)])
  }

  ghost predicate Leads(digest: Digest, s: State, steps: seq<Step>, end: State) {
    Run(digest, s, steps) == end
  }

  lemma LeadsOn(digest: Digest, s: State, steps: seq<Step>, before: State, a: Step, end: State)
    requires Leads(digest, s, steps, before) && Next(digest, before, a) == end
    ensures Leads(digest, s, steps + [a], end)
  {
    RunSnoc(digest, s, steps, a);
  }

  lemma LeadsTwo(digest: Digest, s: State, steps: seq<Step>, before: State, a: Step, b: Step, end: State)
    requires Leads(digest, s, steps, before) && Next(digest, Next(digest, before, a), b) == end
    ensures Leads(digest, s, steps + [a] + [b], end)
  {
    LeadsOn(digest, s, steps, before, a, Next(digest, before, a));
    LeadsOn(digest, s, steps + [a], Next(digest, before, a), b, end);
  }

  lemma LeadsFar(digest: Digest, s: State, steps: seq<Step>, middle: State, more: seq<Step>, end: State)
    requires Leads(digest, s, steps, middle) && Leads(digest, middle, more, end)
    ensures Leads(digest, s, steps + more, end)
  {
    RunJoins(digest, s, steps, more);
  }

  lemma IngestWaits(digest: Digest, e: EventId, id: OutboxId)
    ensures Leads(digest, Empty, [Ingest(e, id)], Waiting(e, id, 0))
  {
    assert [Ingest(e, id)] == [] + [Ingest(e, id)];
    RunSnoc(digest, Empty, [], Ingest(e, id));
  }

  // ----- What a transaction leaves behind -----

  lemma AgentLeaves(agents: map<nat, Agent>, p: nat, a: Agent, b: Agent)
    requires p !in agents
    ensures agents[p := a] - {p} == agents && agents[p := a][p := b] == agents[p := b]
  {
  }

  /** A worker's write, with the observation that goes with it. */
  function Committed(s: State, e: EventId, seen: Option<Status>, normalizes: bool): State {
    var w := WriteBy(s.events, Working(e, seen));
    if normalizes && w.Some? then Observe(s, e).(events := Stored(s.events, w)) else s
  }

  lemma CheckAfterOpen(digest: Digest, s: State, p: nat, e: EventId)
    requires p !in s.agents
    ensures var seen := SeenIn(s.events, e);
      Next(digest, WithAgent(s, p, Opened(e)), Check(p))
      == if Admitted(seen, Processing) then WithAgent(s, p, Working(e, seen)) else s
  {
    AgentLeaves(s.agents, p, Opened(e), Working(e, SeenIn(s.events, e)));
  }

  lemma CommitAfterCheck(digest: Digest, s: State, p: nat, e: EventId, seen: Option<Status>, normalizes: bool)
    requires p !in s.agents
    ensures Next(digest, WithAgent(s, p, Working(e, seen)), Commit(p, normalizes)) == Committed(s, e, seen, normalizes)
  {
    AgentLeaves(s.agents, p, Working(e, seen), Working(e, seen));
  }

  lemma FailAfterBegin(digest: Digest, s: State, p: nat, e: EventId, seen: Option<Status>)
    requires p !in s.agents
    ensures Next(digest, WithAgent(s, p, Failing(e, seen)), Fail(p))
      == s.(events := Stored(s.events, WriteBy(s.events, Failing(e, seen))))
  {
    AgentLeaves(s.agents, p, Failing(e, seen), Failing(e, seen));
  }

  function Attempt(p: nat, e: EventId): seq<Step> {
    [Open(p, e, true)] + [Check(p)] + [Commit(p, true)]
  }

  /** An attempt of a new worker, with nothing in between. */
  lemma AttemptUnfolds(digest: Digest, s: State, p: nat, e: EventId)
    requires p !in s.agents && e in s.events && s.events[e] != Processed && CanTransition(s.events[e], Processing)
    ensures Leads(digest, s, Attempt(p, e), Committed(s, e, SeenIn(s.events, e), true))
  {
    RunThree(digest, s, Open(p, e, true), Check(p), Commit(p, true));
    CheckAfterOpen(digest, s, p, e);
    CommitAfterCheck(digest, s, p, e, SeenIn(s.events, e), true);
  }

  // ----- The code behind the steps -----

  datatype AddOutcome = Added | AlreadyExists | Unreachable(landed: bool)

  datatype PublishError = QueueUnavailable

  /** The protocol steps one uninterrupted publish amounts to. */
  function PublishSteps(p: nat, id: OutboxId, add: AddOutcome, markOk: bool): seq<Step> {
    if add.Unreachable? && !add.landed then [Read(p, id)] + [PublishFails(p)]
    else if add.Unreachable? || !markOk then [Read(p, id)] + [Add(p)] + [PublishFails(p)]
    else [Read(p, id)] + [Add(p)] + [BeginMark(p)] + [Mark(p)]
  }

  /** A mark whose transaction reads the status `seen`. */
  function Marked(s: State, id: OutboxId, e: EventId, seen: Option<Status>): State {
    MarkPublished(s, id).(events := Stored(s.events, WriteBy(s.events, Marking(id, e, seen))))
  }

  /** Events are never deleted. */
  predicate NoneDeleted(events: map<EventId, Status>, meanwhile: map<EventId, Status>) {
    forall e :: e in events ==> e in meanwhile
  }

  /** The state when, between a read of a status and the write judged by it, other transactions have
      made the statuses what `meanwhile` says. Without a write nobody waits. */
  function Between(s: State, e: EventId, via: Status, meanwhile: map<EventId, Status>): State {
    if Admitted(SeenIn(s.events, e), via) then s.(events := meanwhile) else s
  }

  /** What the worker's transaction leaves behind when others commit before its first update. */
  function JobLeaves(s: State, e: EventId, tenantActive: bool, normalizes: bool, meanwhile: map<EventId, Status>): State
  {
    match JobResult(s, e, tenantActive, normalizes)
    case Ok(DidProcess) => Committed(s.(events := meanwhile), e, SeenIn(s.events, e), true)
    case Err(NormalizeFailed) => s.(events := meanwhile)
    case _ => s
  }

  predicate JobBegins(s: State, e: EventId, tenantActive: bool) {
    tenantActive && e in s.events && s.events[e] != Processed && CanTransition(s.events[e], Processing)
  }

  lemma JobBegun(digest: Digest, s: State, p: nat, e: EventId, tenantActive: bool)
    requires p !in s.agents
    ensures Next(digest, Next(digest, s, Open(p, e, tenantActive)), Check(p))
      == if JobBegins(s, e, tenantActive) then WithAgent(s, p, Working(e, SeenIn(s.events, e))) else s
  {
    CheckAfterOpen(digest, s, p, e);
  }

  lemma JobLeavesCommitted(s: State, e: EventId, tenantActive: bool, normalizes: bool, meanwhile: map<EventId, Status>)
    ensures JobLeaves(s, e, tenantActive, normalizes, meanwhile)
      == if JobBegins(s, e, tenantActive) then
           Committed(s.(events := meanwhile), e, SeenIn(s.events, e), normalizes)
         else s
  {
  }

  /** It is the run of the worker's steps. */
  lemma JobIsSteps(
      digest: Digest, s: State, p: nat, e: EventId, tenantActive: bool, normalizes: bool,
      meanwhile: map<EventId, Status>)
    requires p !in s.agents
    ensures var begun := Next(digest, Next(digest, s, Open(p, e, tenantActive)), Check(p));
      JobLeaves(s, e, tenantActive, normalizes, meanwhile)
      == if p in begun.agents then Next(digest, begun.(events := meanwhile), Commit(p, normalizes)) else s
  {
    JobBegun(digest, s, p, e, tenantActive);
    JobLeavesCommitted(s, e, tenantActive, normalizes, meanwhile);
    CommitAfterCheck(digest, s.(events := meanwhile), p, e, SeenIn(s.events, e), normalizes);
  }

  class Pipeline {
    var events: map<EventId, Status>
    var observations: multiset<EventId>
    var outbox: map<OutboxId, OutboxRow>
    var queue: map<Key, EventId>
    ghost var agents: map<nat, Agent>
    ghost var everQueued: set<Entry>
    ghost var normalized: seq<EventId>

    ghost function Snapshot(): State
      reads this
    {
      State(events, observations, outbox, queue, agents, everQueued, normalized)
    }

    constructor ()
      ensures Snapshot() == Empty
    {
      events, observations, outbox, queue := map[], multiset{}, map[], map[];
      agents, everQueued, normalized := map[], {}, [];
    }

    /** Read, judge, update. `meanwhile` are the statuses that are committed when the update gets the row. */
    method UpdateSourceEventStatus(e: EventId, to: Status, meanwhile: map<EventId, Status>)
      returns (r: Result<nat, StatusError>)
      requires NoneDeleted(events, meanwhile)
      modifies this`events
      ensures e !in old(events) ==> r == Ok(0)
      ensures e in old(events) ==>
        r == if CanTransition(old(events)[e], to) then Ok(1) else Err(IllegalTransition)
      ensures events == if r == Ok(1) then meanwhile[e := to] else old(events)
    {
      if e !in events { return Ok(0); }
      if !CanTransition(events[e], to) { return Err(IllegalTransition); }
      events := meanwhile;
      events := events[e := to];
      return Ok(1);
    }

    method NormalizeSourceEvent(e: EventId, normalizes: bool) returns (ok: bool)
      modifies this`observations, this`normalized
      ensures ok == normalizes
      ensures Snapshot() == if ok then Observe(old(Snapshot()), e) else old(Snapshot())
    {
      if !normalizes { return false; }
      if observations[e] > 0 { return true; }
      observations := observations + multiset{e};
      normalized := normalized + [e];
      return true;
    }

    /** The worker's transaction: every early exit with an error rolls everything back. From its
        first update on it holds the event, so nothing comes between its later statements. */
    method ProcessNormalizeJob(e: EventId, tenantActive: bool, normalizes: bool, meanwhile: map<EventId, Status>)
      returns (r: Result<JobStatus, JobError>)
      requires NoneDeleted(events, meanwhile)
      modifies this`events, this`observations, this`normalized
      ensures r == JobResult(old(Snapshot()), e, tenantActive, normalizes)
      ensures Snapshot() == JobLeaves(old(Snapshot()), e, tenantActive, normalizes, meanwhile)
      ensures r == Ok(DidProcess) ==> events == meanwhile[e := Processed] && observations[e] > 0
      ensures r == Err(NormalizeFailed) ==> events == meanwhile && observations == old(observations)
    {
      if !tenantActive { return Err(TenantInactive); }
      if e !in events { return Err(EventMissing); }
      if events[e] == Processed { return Ok(Duplicate); }
      var moved := UpdateSourceEventStatus(e, Processing, meanwhile);
      if moved.Err? { return Err(Illegal); }
      var ok := NormalizeSourceEvent(e, normalizes);
      if !ok {
        events := meanwhile;
        return Err(NormalizeFailed);
      }
      var done := UpdateSourceEventStatus(e, Processed, events);
      assert events == meanwhile[e := Processing][e := Processed] == meanwhile[e := Processed];
      return Ok(DidProcess);
    }

    method MarkJobPermanentlyFailed(e: EventId, meanwhile: map<EventId, Status>, ghost digest: Digest, ghost p: nat)
      requires NoneDeleted(events, meanwhile) && p !in agents
      modifies this`events
      ensures Snapshot()
        == Next(digest, Between(Next(digest, old(Snapshot()), BeginFail(p, e)), e, Failed, meanwhile), Fail(p))
      ensures events
        == if e in old(events) && old(events)[e] != Processed then meanwhile[e := Failed] else old(events)
    {
      FailAfterBegin(digest, Between(Snapshot(), e, Failed, meanwhile), p, e, SeenIn(events, e));
      var r := UpdateSourceEventStatus(e, Failed, meanwhile);
    }

    method MarkOutboxPublishFailed(id: OutboxId)
      modifies this`outbox
      ensures Snapshot() == MarkPublishFailed(old(Snapshot()), id)
      ensures id in old(outbox) ==>
        var was := old(outbox)[id];
        outbox == old(outbox)[id := OutboxRow(
          was.event, if was.attempts >= 19 then PublishFailed else was.status, was.attempts + 1)]
    {
      if id in outbox {
        outbox := outbox[id := AfterPublishFailure(outbox[id])];
      }
    }

    method EnqueueOnce(k: Key, e: EventId)
      modifies this`queue, this`everQueued
      ensures Snapshot() == AddToQueue(old(Snapshot()), k, e)
    {
      if k !in queue {
        queue := queue[k := e];
        everQueued := everQueued + {Entry(k, e)};
      }
    }

    method MarkOutboxPublished(id: OutboxId, e: EventId, meanwhile: map<EventId, Status>)
      requires NoneDeleted(events, meanwhile)
      modifies this`outbox, this`events
      ensures Snapshot() == Marked(Between(old(Snapshot()), e, Queued, meanwhile), id, e, SeenIn(old(events), e))
      ensures id in old(outbox) ==>
        var was := old(outbox)[id]; outbox == old(outbox)[id := OutboxRow(was.event, Published, was.attempts)]
      ensures events
        == if e in old(events) && old(events)[e] == Received then meanwhile[e := Queued] else old(events)
    {
      if id in outbox {
        outbox := outbox[id := outbox[id].(status := Published)];
      }
      var late := UpdateSourceEventStatus(e, Queued, meanwhile);
    }

    /** A publish without interference is a run of the protocol by one new publisher. */
    method PublishOutboxJob(id: OutboxId, digest: Digest, add: AddOutcome, markOk: bool, ghost p: nat)
      returns (r: Result<bool, PublishError>)
      requires p !in agents
      modifies this`events, this`outbox, this`queue, this`everQueued
      ensures id !in old(outbox) ==> r == Ok(false) && Snapshot() == old(Snapshot())
      ensures id in old(outbox) && old(outbox)[id].status == Published ==>
        r == Ok(true) && Snapshot() == old(Snapshot())
      ensures id in old(outbox) && old(outbox)[id].status != Published ==>
        && (r.Ok? <==> !add.Unreachable? && markOk)
        && Snapshot() == Run(digest, old(Snapshot()), PublishSteps(p, id, add, markOk))
    {
      if id !in outbox { return Ok(false); }
      if outbox[id].status == Published { return Ok(true); }
      var e := outbox[id].event;
      PublishUnfolds(digest, Snapshot(), p, id, add, markOk);
      if add.Unreachable? && !add.landed {
        MarkOutboxPublishFailed(id);
        return Err(QueueUnavailable);
      }
      EnqueueOnce(digest(id), e);
      if add.Unreachable? || !markOk {
        MarkOutboxPublishFailed(id);
        return Err(QueueUnavailable);
      }
      MarkOutboxPublished(id, e, events);
      return Ok(true);
    }
  }

  lemma AddAfterRead(digest: Digest, s: State, p: nat, id: OutboxId, e: EventId)
    ensures Next(digest, WithAgent(s, p, HasRead(id, e)), Add(p))
         == WithAgent(AddToQueue(s, digest(id), e), p, HasAdded(id, e))
  {
    assert s.agents[p := HasRead(id, e)][p := HasAdded(id, e)] == s.agents[p := HasAdded(id, e)];
  }

  lemma FailAfter(digest: Digest, s: State, p: nat, agent: Agent)
    requires p !in s.agents && IsPublisher(agent)
    ensures Next(digest, WithAgent(s, p, agent), PublishFails(p)) == MarkPublishFailed(s, agent.id)
  {
    assert s.agents[p := agent] - {p} == s.agents;
  }

  lemma MarkAfterBegin(digest: Digest, s: State, p: nat, id: OutboxId, e: EventId, seen: Option<Status>)
    requires p !in s.agents
    ensures Next(digest, WithAgent(s, p, Marking(id, e, seen)), Mark(p)) == Marked(s, id, e, seen)
  {
    AgentLeaves(s.agents, p, Marking(id, e, seen), Marking(id, e, seen));
  }

  lemma MarkAfterAdd(digest: Digest, s: State, p: nat, id: OutboxId, e: EventId)
    requires p !in s.agents
    ensures Next(digest, Next(digest, WithAgent(s, p, HasAdded(id, e)), BeginMark(p)), Mark(p))
         == Marked(s, id, e, SeenIn(s.events, e))
  {
    AgentLeaves(s.agents, p, HasAdded(id, e), Marking(id, e, SeenIn(s.events, e)));
    MarkAfterBegin(digest, s, p, id, e, SeenIn(s.events, e));
  }

  /** The whole publish in one equation: what the publisher held is gone again at its end. */
  lemma {:induction false} PublishUnfolds(digest: Digest, s: State, p: nat, id: OutboxId, add: AddOutcome, markOk: bool)
    requires p !in s.agents && id in s.outbox && s.outbox[id].status != Published
    ensures Run(digest, s, PublishSteps(p, id, add, markOk))
      == var e := s.outbox[id].event;
         if add.Unreachable? && !add.landed then MarkPublishFailed(s, id)
         else if add.Unreachable? || !markOk then MarkPublishFailed(AddToQueue(s, digest(id), e), id)
         else Marked(AddToQueue(s, digest(id), e), id, e, SeenIn(s.events, e))
  {
    var e := s.outbox[id].event;
    assert Next(digest, s, Read(p, id)) == WithAgent(s, p, HasRead(id, e));
    var queued := AddToQueue(s, digest(id), e);
    if add.Unreachable? && !add.landed {
      RunTwo(digest, s, Read(p, id), PublishFails(p));
      FailAfter(digest, s, p, HasRead(id, e));
    } else if add.Unreachable? || !markOk {
      RunThree(digest, s, Read(p, id), Add(p), PublishFails(p));
      AddAfterRead(digest, s, p, id, e);
      FailAfter(digest, queued, p, HasAdded(id, e));
    } else {
      RunThree(digest, s, Read(p, id), Add(p), BeginMark(p));
      RunSnoc(digest, s, [Read(p, id)] + [Add(p)] + [BeginMark(p)], Mark(p));
      AddAfterRead(digest, s, p, id, e);
      MarkAfterAdd(digest, queued, p, id, e);
    }
  }
}
