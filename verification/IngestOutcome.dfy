/** What the writes of the ingest pipeline leave behind, status by status (packages/db/src/ingest-status.ts,
    packages/queue/src/publisher.ts, packages/queue/src/process.ts), and the ordinary life of an event. */
module IngestOutcome {
  import opened Common
  import opened IngestPipeline
  import opened IngestStatus

  // ----- The table -----

  /** The table admits the moves ahead, to processed only from processing, and writing again what is
      neither received nor queued. */
  lemma TableExactly(from: Status, to: Status)
    ensures CanTransition(from, to) <==>
      if from == to then from == Processing || Final(from)
      else Rank(from) < Rank(to) && (to == Processed ==> from == Processing)
  {
  }

  // ----- The worker's transaction -----

  /** The answer of a job, by tenant, stored status and payload. */
  lemma JobAnswers(s: State, e: EventId, tenantActive: bool, normalizes: bool)
    ensures var r := JobResult(s, e, tenantActive, normalizes);
      if !tenantActive then r == Err(TenantInactive)
      else if e !in s.events then r == Err(EventMissing)
      else match s.events[e]
        case Processed => r == Ok(Duplicate)
        case Failed => r == Err(Illegal)
        case _ => r == if normalizes then Ok(DidProcess) else Err(NormalizeFailed)
  {
  }

  /** A job that answers processed leaves its event processed and observed, whatever others committed
      meanwhile; a failed normalization leaves what the others committed; any other answer nothing new. */
  lemma JobWrites(s: State, e: EventId, tenantActive: bool, normalizes: bool, meanwhile: map<EventId, Status>)
    requires NoneDeleted(s.events, meanwhile)
    ensures var r := JobResult(s, e, tenantActive, normalizes);
      var end := JobLeaves(s, e, tenantActive, normalizes, meanwhile);
      && end.events == (if r == Ok(DidProcess) then meanwhile[e := Processed]
                        else if r == Err(NormalizeFailed) then meanwhile else s.events)
      && end.observations == (if r == Ok(DidProcess) && e !in s.observations then s.observations + multiset{e}
                              else s.observations)
  {
    JobAnswers(s, e, tenantActive, normalizes);
    if JobResult(s, e, tenantActive, normalizes) == Ok(DidProcess) {
      assert e in meanwhile;
    }
  }

  // ----- Single writes -----

  /** A worker that read a status it may move on makes its event processed and observed, whatever is
      stored by then; one that fails to normalize changes nothing. */
  lemma CommitWrites(digest: Digest, s: State, p: nat, normalizes: bool)
    requires p in s.agents && s.agents[p].Working? && s.agents[p].event in s.events
    requires s.agents[p].seen in {Some(Received), Some(Queued), Some(Processing)}
    ensures var end, e := Next(digest, s, Commit(p, normalizes)), s.agents[p].event;
      && p !in end.agents
      && end.events == (if normalizes then s.events[e := Processed] else s.events)
      && end.observations
         == (if normalizes && e !in s.observations then s.observations + multiset{e} else s.observations)
      && end.outbox == s.outbox && end.queue == s.queue
  {
  }

  /** A publisher's mark publishes its row in any case, and makes the event queued exactly when it read
      it as received. */
  lemma MarkWrites(digest: Digest, s: State, p: nat)
    requires p in s.agents && s.agents[p].Marking?
    ensures var end, id, e := Next(digest, s, Mark(p)), s.agents[p].id, s.agents[p].event;
      && p !in end.agents
      && (id in s.outbox ==>
            var row := s.outbox[id]; end.outbox == s.outbox[id := OutboxRow(row.event, Published, row.attempts)])
      && end.events
         == (if s.agents[p].seen == Some(Received) && e in s.events then s.events[e := Queued] else s.events)
      && end.observations == s.observations && end.queue == s.queue
  {
  }

  /** A failure mark makes the event failed exactly when it read it as anything but processed. */
  lemma FailWrites(digest: Digest, s: State, p: nat)
    requires p in s.agents && s.agents[p].Failing?
    ensures var end, e := Next(digest, s, Fail(p)), s.agents[p].event;
      && p !in end.agents
      && end.events
         == (if s.agents[p].seen.Some? && s.agents[p].seen.value != Processed && e in s.events
             then s.events[e := Failed] else s.events)
      && end.observations == s.observations && end.queue == s.queue && end.outbox == s.outbox
  {
  }

  // ----- A publish and what follows -----

  /** The steps of a publish that goes well and of an attempt of a worker after it. */
  function PublishAndProcess(p: nat, id: OutboxId, e: EventId): seq<Step> {
    PublishSteps(p, id, Added, true) + Attempt(p, e)
  }

  /** The row after one more failed publish. */
  function OnceMoreFailed(row: OutboxRow): OutboxRow {
    OutboxRow(row.event, if row.attempts >= 19 then PublishFailed else row.status, row.attempts + 1)
  }

  lemma FailureLeaves(s: State, id: OutboxId)
    requires id in s.outbox
    ensures MarkPublishFailed(s, id) == s.(outbox := s.outbox[id := OnceMoreFailed(s.outbox[id])])
  {
  }

  lemma MarkedLeaves(s: State, id: OutboxId, e: EventId)
    requires id in s.outbox
    ensures Marked(s, id, e, SeenIn(s.events, e))
      == s.(outbox := s.outbox[id := OutboxRow(s.outbox[id].event, Published, s.outbox[id].attempts)],
            events := if e in s.events && s.events[e] == Received then s.events[e := Queued] else s.events)
  {
  }

  /** A publish leaves an entry under the row's key unless the queue refused it, and its row published, or
      with one more failed attempt, the twentieth being the last. The event is queued when it was received. */
  lemma {:induction false} PublishLeaves(digest: Digest, s: State, p: nat, id: OutboxId, add: AddOutcome, markOk: bool)
    requires p !in s.agents && id in s.outbox && s.outbox[id].status != Published
    ensures var end := Run(digest, s, PublishSteps(p, id, add, markOk));
      var row, done := s.outbox[id], !add.Unreachable? && markOk;
      && end.agents == s.agents && end.observations == s.observations
      && end.queue == (if add == Unreachable(false) || digest(id) in s.queue then s.queue
                       else s.queue[digest(id) := row.event])
      && end.outbox
         == s.outbox[id := if done then OutboxRow(row.event, Published, row.attempts) else OnceMoreFailed(row)]
      && end.events == if done && row.event in s.events && s.events[row.event] == Received
                       then s.events[row.event := Queued] else s.events
  {
    PublishUnfolds(digest, s, p, id, add, markOk);
    var queued := AddToQueue(s, digest(id), s.outbox[id].event);
    if add == Unreachable(false) {
      FailureLeaves(s, id);
    } else if add.Unreachable? || !markOk {
      FailureLeaves(queued, id);
    } else {
      MarkedLeaves(queued, id, s.outbox[id].event);
    }
  }

  lemma {:induction false} QueuedIsProcessed(digest: Digest, s: State, p: nat, e: EventId)
    requires p !in s.agents && e in s.events && s.events[e] == Queued
    ensures var end := Run(digest, s, Attempt(p, e));
      && end.events == s.events[e := Processed] && end.outbox == s.outbox && end.queue == s.queue
      && end.observations == if e in s.observations then s.observations else s.observations + multiset{e}
  {
    AttemptUnfolds(digest, s, p, e);
  }

  /** An event that was received, published without interference and then taken up by a worker ends
      processed and observed once more than never, its row published and its entry in the queue. */
  lemma {:induction false} PublishedThenProcessed(digest: Digest, s: State, p: nat, id: OutboxId, e: EventId)
    requires p !in s.agents && id in s.outbox && s.outbox[id].event == e && s.outbox[id].status != Published
    requires e in s.events && s.events[e] == Received && e !in s.observations
    ensures var end := Run(digest, s, PublishAndProcess(p, id, e));
      && e in end.events && end.events[e] == Processed && end.observations[e] == 1
      && id in end.outbox && end.outbox[id].status == Published && digest(id) in end.queue
  {
    PublishLeaves(digest, s, p, id, Added, true);
    QueuedIsProcessed(digest, Run(digest, s, PublishSteps(p, id, Added, true)), p, e);
    RunJoins(digest, s, PublishSteps(p, id, Added, true), Attempt(p, e));
  }

  // ----- The scheduled worker's closes -----

  /** A close changes a pending row and nothing else: to failed or back to pending with one more attempt, or to
      published when its event was observed. */
  lemma CloseWrites(digest: Digest, s: State, id: OutboxId, verdict: Verdict)
    ensures var end := Next(digest, s, ScheduledClose(id, verdict));
      && end == s.(outbox := end.outbox)
      && (id !in s.outbox || s.outbox[id].status != Pending ==> end == s)
      && (id in s.outbox && s.outbox[id].status == Pending ==>
            var row := s.outbox[id];
            end.outbox == s.outbox[id :=
              match verdict
              case CloseProcessed =>
                OutboxRow(row.event, if row.event in s.observations then Published else Pending, row.attempts)
              case CloseFailed => OutboxRow(row.event, PublishFailed, row.attempts + 1)
              case CloseRetry => OutboxRow(row.event, Pending, row.attempts + 1)])
  {
  }

  // ----- What the others do -----

  /** Ingestion stores a new event as received with a pending row; a crash forgets what one agent holds; the
      queue forgets an entry. None of them touches anything else. */
  lemma OtherSteps(digest: Digest, s: State, e: EventId, id: OutboxId, p: nat, k: Key)
    ensures Next(digest, s, Ingest(e, id))
      == if e in s.events || id in s.outbox then s
         else s.(events := s.events[e := Received], outbox := s.outbox[id := OutboxRow(e, Pending, 0)])
    ensures Next(digest, s, Crash(p)).agents == s.agents - {p} && k !in Next(digest, s, RemoveEntry(k)).queue
    ensures Next(digest, s, Crash(p)) == s.(agents := Next(digest, s, Crash(p)).agents)
    ensures Next(digest, s, RemoveEntry(k)) == s.(queue := Next(digest, s, RemoveEntry(k)).queue)
    ensures forall other :: other != k ==>
      (other in Next(digest, s, RemoveEntry(k)).queue <==> other in s.queue)
  {
  }
}
