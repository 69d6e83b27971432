/** What a published outbox row stands for, over any run of the ingest pipeline
    (packages/queue/src/publisher.ts, packages/db/src/repos/outbox.ts). */
module OutboxPublishing {
  import opened Common
  import opened IngestPipeline
  import IngestStatus

  // ----- Published only when queued or done -----

  /** Every queue entry carries the event of an outbox row with its key, and is in the history. */
  ghost predicate Backed(digest: Digest, s: State, k: Key) {
    k in s.queue ==>
      && Entry(k, s.queue[k]) in s.everQueued
      && exists id :: id in s.outbox && digest(id) == k && s.outbox[id].event == s.queue[k]
  }

  /** A publisher past the queue put its row's event there, or found it there. */
  ghost predicate Honest(digest: Digest, s: State, p: nat) {
    p in s.agents && IsPublisher(s.agents[p]) ==>
      var phase := s.agents[p];
      && phase.id in s.outbox && s.outbox[phase.id].event == phase.event
      && (!phase.HasRead? ==> Entry(digest(phase.id), phase.event) in s.everQueued)
  }

  ghost predicate IsPublished(s: State, id: OutboxId) {
    id in s.outbox && s.outbox[id].status == Published
  }

  /** What a published row stands for. */
  ghost predicate Justified(digest: Digest, s: State, id: OutboxId) {
    IsPublished(s, id) ==>
      Entry(digest(id), s.outbox[id].event) in s.everQueued || s.observations[s.outbox[id].event] > 0
  }

  ghost predicate Accounted(digest: Digest, s: State) {
    && (forall k :: Backed(digest, s, k))
    && (forall p :: Honest(digest, s, p))
    && (forall id :: Justified(digest, s, id))
  }

  /** What any step keeps of the rows, the history and the observations. */
  ghost predicate Extends(s: State, s': State) {
    && (forall id :: id in s.outbox ==> id in s'.outbox && s'.outbox[id].event == s.outbox[id].event)
    && s.everQueued <= s'.everQueued
    && s.observations <= s'.observations
  }

  lemma StepExtends(digest: Digest, s: State, a: Step)
    ensures Extends(s, Next(digest, s, a))
  {
    StepKeepsRows(digest, s, a);
  }

  ghost predicate KeepsRows(s: State, s': State) {
    && s.everQueued <= s'.everQueued
    && forall id :: id in s.outbox ==> id in s'.outbox && s'.outbox[id].event == s.outbox[id].event
  }

  lemma MarkKeepsRows(s: State, p: nat)
    ensures KeepsRows(s, MarkStep(s, p))
  {
  }

  lemma FailureKeepsRows(s: State, p: nat)
    ensures KeepsRows(s, PublishFailsStep(s, p))
  {
  }

  lemma CloseKeepsRows(s: State, id: OutboxId, verdict: Verdict)
    ensures KeepsRows(s, CloseRow(s, id, verdict))
  {
  }

  lemma StepKeepsRows(digest: Digest, s: State, a: Step)
    ensures KeepsRows(s, Next(digest, s, a))
  {
    if a.Mark? {
      MarkKeepsRows(s, a.p);
    } else if a.PublishFails? {
      FailureKeepsRows(s, a.p);
    } else if a.ScheduledClose? {
      CloseKeepsRows(s, a.id, a.verdict);
    }
  }

  lemma BackedStays(digest: Digest, s: State, s': State, k: Key)
    requires Backed(digest, s, k) && KeepsRows(s, s')
    requires k in s'.queue ==> k in s.queue && s'.queue[k] == s.queue[k]
    ensures Backed(digest, s', k)
  {
    if k in s'.queue {
      var id :| id in s.outbox && digest(id) == k && s.outbox[id].event == s.queue[k];
      assert id in s'.outbox && digest(id) == k && s'.outbox[id].event == s'.queue[k];
    }
  }

  lemma AddingStaysBacked(digest: Digest, s: State, id: OutboxId, e: EventId, k: Key)
    requires Backed(digest, s, k) && id in s.outbox && s.outbox[id].event == e
    ensures Backed(digest, AddToQueue(s, digest(id), e), k)
  {
    var s' := AddToQueue(s, digest(id), e);
    if k == digest(id) && k !in s.queue {
      assert id in s'.outbox && digest(id) == k && s'.outbox[id].event == s'.queue[k];
    } else {
      BackedStays(digest, s, s', k);
    }
  }

  lemma StepStaysBacked(digest: Digest, s: State, a: Step, k: Key)
    requires Accounted(digest, s)
    ensures Backed(digest, Next(digest, s, a), k)
  {
    assert Backed(digest, s, k);
    StepKeepsRows(digest, s, a);
    var s' := Next(digest, s, a);
    if a.Add? && a.p in s.agents && s.agents[a.p].HasRead? {
      var phase := s.agents[a.p];
      assert Honest(digest, s, a.p);
      var added := AddToQueue(s, digest(phase.id), phase.event);
      AddingStaysBacked(digest, s, phase.id, phase.event, k);
      BackedStays(digest, added, s', k);
    } else {
      QueueShrinks(digest, s, a);
      BackedStays(digest, s, s', k);
    }
  }

  lemma QueueShrinks(digest: Digest, s: State, a: Step)
    requires !(a.Add? && a.p in s.agents && s.agents[a.p].HasRead?)
    ensures forall k :: k in Next(digest, s, a).queue ==> k in s.queue && Next(digest, s, a).queue[k] == s.queue[k]
  {
  }

  /** The injective digest at work: finding the key taken means finding this very job there. */
  lemma AddedIsQueued(digest: Digest, s: State, id: OutboxId, e: EventId)
    requires Injective(digest) && Backed(digest, s, digest(id)) && id in s.outbox && s.outbox[id].event == e
    ensures Entry(digest(id), e) in AddToQueue(s, digest(id), e).everQueued
  {
  }

  lemma HonestStays(digest: Digest, s: State, s': State, p: nat)
    requires Honest(digest, s, p) && KeepsRows(s, s')
    requires p in s'.agents && IsPublisher(s'.agents[p]) ==> p in s.agents && s'.agents[p] == s.agents[p]
    ensures Honest(digest, s', p)
  {
  }

  lemma StepStaysHonest(digest: Digest, s: State, a: Step, p: nat)
    requires Injective(digest) && Accounted(digest, s)
    ensures Honest(digest, Next(digest, s, a), p)
  {
    assert Honest(digest, s, p);
    StepKeepsRows(digest, s, a);
    if a.Add? && a.p == p {
      if p in s.agents && s.agents[p].HasRead? {
        var phase := s.agents[p];
        assert Backed(digest, s, digest(phase.id));
        AddedIsQueued(digest, s, phase.id, phase.event);
      }
    } else if (a.Read? || a.BeginMark?) && a.p == p {
    } else {
      OthersUntouched(digest, s, a, p);
      HonestStays(digest, s, Next(digest, s, a), p);
    }
  }

  /** At most the agent `p` differs. */
  ghost predicate SameBut(s: State, s': State, p: nat) {
    forall q :: q != p && q in s'.agents ==> q in s.agents && s'.agents[q] == s.agents[q]
  }

  predicate OfTransaction(a: Step) {
    a.Open? || a.Check? || a.Commit? || a.BeginFail? || a.Fail?
  }

  predicate OfPublisher(a: Step) {
    a.Read? || a.Add? || a.BeginMark? || a.Mark? || a.PublishFails? || a.Crash?
  }

  lemma PublisherStepsAlone(digest: Digest, s: State, a: Step)
    requires OfPublisher(a)
    ensures SameBut(s, Next(digest, s, a), a.p)
    ensures a.Mark? || a.PublishFails? || a.Crash? ==>
      a.p in Next(digest, s, a).agents ==> a.p in s.agents && Next(digest, s, a).agents[a.p] == s.agents[a.p]
  {
  }

  lemma TransactionStepsAlone(digest: Digest, s: State, a: Step)
    requires OfTransaction(a)
    ensures SameBut(s, Next(digest, s, a), a.p)
    ensures a.p in Next(digest, s, a).agents && IsPublisher(Next(digest, s, a).agents[a.p]) ==>
      a.p in s.agents && Next(digest, s, a).agents[a.p] == s.agents[a.p]
  {
  }

  lemma OthersUntouched(digest: Digest, s: State, a: Step, p: nat)
    requires !((a.Add? || a.Read? || a.BeginMark?) && a.p == p)
    ensures p in Next(digest, s, a).agents && IsPublisher(Next(digest, s, a).agents[p]) ==>
      p in s.agents && Next(digest, s, a).agents[p] == s.agents[p]
  {
    if OfPublisher(a) {
      PublisherStepsAlone(digest, s, a);
    } else if OfTransaction(a) {
      TransactionStepsAlone(digest, s, a);
    }
  }

  lemma JustifiedStays(digest: Digest, s: State, s': State, id: OutboxId)
    requires Justified(digest, s, id) && Extends(s, s')
    requires IsPublished(s', id) ==> IsPublished(s, id)
    ensures Justified(digest, s', id)
  {
  }

  lemma StepStaysJustified(digest: Digest, s: State, a: Step, id: OutboxId)
    requires Accounted(digest, s)
    ensures Justified(digest, Next(digest, s, a), id)
  {
    assert Justified(digest, s, id);
    StepExtends(digest, s, a);
    if a.Mark? {
      assert Honest(digest, s, a.p);
      if !(a.p in s.agents && s.agents[a.p].Marking? && s.agents[a.p].id == id) {
        JustifiedStays(digest, s, Next(digest, s, a), id);
      }
    } else if !a.ScheduledClose? {
      NothingPublished(digest, s, a, id);
      JustifiedStays(digest, s, Next(digest, s, a), id);
    }
  }

  lemma NothingPublished(digest: Digest, s: State, a: Step, id: OutboxId)
    requires !a.Mark? && !a.ScheduledClose?
    ensures var s' := Next(digest, s, a);
      IsPublished(s', id) ==> IsPublished(s, id)
  {
  }

  lemma StepAccounts(digest: Digest, s: State, a: Step)
    requires Injective(digest) && Accounted(digest, s)
    ensures Accounted(digest, Next(digest, s, a))
  {
    forall k ensures Backed(digest, Next(digest, s, a), k) { StepStaysBacked(digest, s, a, k); }
    forall p ensures Honest(digest, Next(digest, s, a), p) { StepStaysHonest(digest, s, a, p); }
    forall id ensures Justified(digest, Next(digest, s, a), id) { StepStaysJustified(digest, s, a, id); }
  }

  /** For every interleaving of publishers, crashes between the queue and the mark, lost
      responses, redeliveries, removals and scheduled closes: a row is `published` only if an
      entry for its own event was added under its key, or its event has been normalized. */
  lemma {:induction false} PublishedIsJustified(digest: Digest, steps: seq<Step>)
    requires Injective(digest)
    ensures Accounted(digest, Run(digest, Empty, steps))
  {
    if steps != [] {
      PublishedIsJustified(digest, steps[..|steps| - 1]);
      StepAccounts(digest, Run(digest, Empty, steps[..|steps| - 1]), steps[|steps| - 1]);
    }
  }

  /** Where no status is overwritten: queued, or its event is processed. */
  lemma {:induction false} PublishedIsQueuedOrDone(digest: Digest, steps: seq<Step>, id: OutboxId)
    requires Injective(digest) && IngestStatus.NothingOverwritten(digest, steps)
    requires IsPublished(Run(digest, Empty, steps), id)
    ensures var s := Run(digest, Empty, steps);
      Entry(digest(id), s.outbox[id].event) in s.everQueued || IngestStatus.Done(s, s.outbox[id].event)
  {
    PublishedIsJustified(digest, steps);
    assert Justified(digest, Run(digest, Empty, steps), id);
    IngestStatus.UndisturbedRunsSettle(digest, steps, Run(digest, Empty, steps).outbox[id].event);
  }

  // ----- Which published rows were queued -----

  /** A publisher that read the row adds its event to the queue, or finds it there. */
  ghost predicate AddsAt(digest: Digest, steps: seq<Step>, n: nat, id: OutboxId, e: EventId) {
    && n < |steps| && steps[n].Add?
    && steps[n].p in Run(digest, Empty, steps[..n]).agents
    && Run(digest, Empty, steps[..n]).agents[steps[n].p] == HasRead(id, e)
  }

  ghost predicate AddedWithin(digest: Digest, steps: seq<Step>, id: OutboxId, e: EventId) {
    exists n: nat :: AddsAt(digest, steps, n, id, e)
  }

  /** The scheduled worker closes the row as processed, and the close takes effect. */
  ghost predicate ClosesAt(digest: Digest, steps: seq<Step>, n: nat, id: OutboxId) {
    && n < |steps| && steps[n] == ScheduledClose(id, CloseProcessed)
    && !IsPublished(Run(digest, Empty, steps[..n]), id)
    && IsPublished(Next(digest, Run(digest, Empty, steps[..n]), steps[n]), id)
  }

  ghost predicate ClosedWithin(digest: Digest, steps: seq<Step>, id: OutboxId) {
    exists n: nat :: ClosesAt(digest, steps, n, id)
  }

  lemma AddedAppends(digest: Digest, steps: seq<Step>, a: Step, id: OutboxId, e: EventId)
    ensures AddedWithin(digest, steps + [a], id, e)
      <==> AddedWithin(digest, steps, id, e) || AddsAt(digest, steps + [a], |steps|, id, e)
  {
    var longer := steps + [a];
    forall n: nat | n < |steps| ensures AddsAt(digest, longer, n, id, e) <==> AddsAt(digest, steps, n, id, e) {
      assert longer[..n] == steps[..n];
    }
  }

  lemma ClosedStays(digest: Digest, steps: seq<Step>, a: Step, id: OutboxId)
    requires ClosedWithin(digest, steps, id)
    ensures ClosedWithin(digest, steps + [a], id)
  {
    var n: nat :| ClosesAt(digest, steps, n, id);
    assert (steps + [a])[..n] == steps[..n];
    assert ClosesAt(digest, steps + [a], n, id);
  }

  lemma StepQueues(digest: Digest, s: State, a: Step, id: OutboxId, e: EventId)
    requires Injective(digest) && Accounted(digest, s)
    ensures Entry(digest(id), e) in Next(digest, s, a).everQueued
      <==>
      Entry(digest(id), e) in s.everQueued
        || (a.Add? && a.p in s.agents && s.agents[a.p] == HasRead(id, e))
  {
    if a.Add? && a.p in s.agents && s.agents[a.p].HasRead? {
      var phase := s.agents[a.p];
      assert Honest(digest, s, a.p) && Backed(digest, s, digest(phase.id));
      AddedIsQueued(digest, s, phase.id, phase.event);
    } else {
      HistoryStays(digest, s, a);
    }
  }

  lemma HistoryStays(digest: Digest, s: State, a: Step)
    requires !(a.Add? && a.p in s.agents && s.agents[a.p].HasRead?)
    ensures Next(digest, s, a).everQueued == s.everQueued
  {
  }

  /** Over any run: an event was queued under a row's key exactly when a publisher that had read
      that row reached the queue. */
  lemma {:induction false} QueuedIffAdded(digest: Digest, steps: seq<Step>, id: OutboxId, e: EventId)
    requires Injective(digest)
    ensures Entry(digest(id), e) in Run(digest, Empty, steps).everQueued <==> AddedWithin(digest, steps, id, e)
  {
    if steps != [] {
      var front, a := steps[..|steps| - 1], steps[|steps| - 1];
      QueuedIffAdded(digest, front, id, e);
      PublishedIsJustified(digest, front);
      StepQueues(digest, Run(digest, Empty, front), a, id, e);
      assert steps == front + [a];
      AddedAppends(digest, front, a, id, e);
    }
  }

  lemma OnlyMarkPublishes(digest: Digest, s: State, a: Step, id: OutboxId)
    requires !IsPublished(s, id) && IsPublished(Next(digest, s, a), id)
    ensures a == ScheduledClose(id, CloseProcessed)
      || (a.Mark? && a.p in s.agents && s.agents[a.p].Marking? && s.agents[a.p].id == id)
  {
  }

  lemma {:induction false} MarkedMeansQueued(digest: Digest, steps: seq<Step>, id: OutboxId)
    requires Injective(digest) && IsPublished(Run(digest, Empty, steps), id) && !ClosedWithin(digest, steps, id)
    ensures Entry(digest(id), Run(digest, Empty, steps).outbox[id].event) in Run(digest, Empty, steps).everQueued
  {
    var front, a := steps[..|steps| - 1], steps[|steps| - 1];
    var before := Run(digest, Empty, front);
    assert steps == front + [a];
    PublishedIsJustified(digest, front);
    StepKeepsRows(digest, before, a);
    if IsPublished(before, id) {
      if ClosedWithin(digest, front, id) { ClosedStays(digest, front, a, id); }
      MarkedMeansQueued(digest, front, id);
    } else {
      OnlyMarkPublishes(digest, before, a, id);
      assert !ClosesAt(digest, steps, |front|, id);
      assert Honest(digest, before, a.p);
    }
  }

  /** A published row was never queued exactly when the scheduled worker's close of this very row
      took effect and no publisher that had read it reached the queue. */
  lemma {:induction false} PublishedMeansQueued(digest: Digest, steps: seq<Step>, id: OutboxId)
    requires Injective(digest) && IsPublished(Run(digest, Empty, steps), id)
    ensures var end := Run(digest, Empty, steps);
      Entry(digest(id), end.outbox[id].event) !in end.everQueued
      <==> ClosedWithin(digest, steps, id) && !AddedWithin(digest, steps, id, end.outbox[id].event)
  {
    QueuedIffAdded(digest, steps, id, Run(digest, Empty, steps).outbox[id].event);
    if !ClosedWithin(digest, steps, id) {
      MarkedMeansQueued(digest, steps, id);
    }
  }

  lemma CloseOfWorked(e: EventId, id: OutboxId)
    ensures var end := CloseRow(Committed(Waiting(e, id, 0), e, Some(Received), true), id, CloseProcessed);
      IsPublished(end, id) && end.everQueued == {}
  {
  }

  /** An event processed on another way, its row closed afterwards: published, and nothing was queued. */
  lemma ClosedWithoutQueue(digest: Digest, e: EventId, id: OutboxId)
    ensures var end := Run(digest, Empty, [Ingest(e, id)] + Attempt(0, e) + [ScheduledClose(id, CloseProcessed)]);
      IsPublished(end, id) && end.everQueued == {}
  {
    var worked := Committed(Waiting(e, id, 0), e, Some(Received), true);
    IngestWaits(digest, e, id);
    AttemptUnfolds(digest, Waiting(e, id, 0), 0, e);
    LeadsFar(digest, Empty, [Ingest(e, id)], Waiting(e, id, 0), Attempt(0, e), worked);
    var end := CloseRow(worked, id, CloseProcessed);
    LeadsOn(digest, Empty, [Ingest(e, id)] + Attempt(0, e), worked, ScheduledClose(id, CloseProcessed), end);
    CloseOfWorked(e, id);
  }

  // ----- Failing publishes -----

  /** An event comes in, and `n` publishes of its row fail one after the other. */
  function Failures(e: EventId, id: OutboxId, n: nat): seq<Step> {
    if n == 0 then [Ingest(e, id)] else Failures(e, id, n - 1) + [Read(0, id)] + [PublishFails(0)]
  }

  lemma FailureCounts(digest: Digest, e: EventId, id: OutboxId, n: nat)
    requires n + 1 < MAX_PUBLISH_ATTEMPTS
    ensures Next(digest, Next(digest, Waiting(e, id, n), Read(0, id)), PublishFails(0)) == Waiting(e, id, n + 1)
  {
    FailAfter(digest, Waiting(e, id, n), 0, HasRead(id, e));
  }

  lemma {:induction false} NoFailureYet(digest: Digest, e: EventId, id: OutboxId, n: nat)
    requires n == 0
    ensures Leads(digest, Empty, Failures(e, id, n), Waiting(e, id, n))
  {
    IngestWaits(digest, e, id);
  }

  lemma NextFailureCounts(digest: Digest, e: EventId, id: OutboxId, n: nat)
    requires 0 < n < MAX_PUBLISH_ATTEMPTS
    requires Leads(digest, Empty, Failures(e, id, n - 1), Waiting(e, id, n - 1))
    ensures Leads(digest, Empty, Failures(e, id, n), Waiting(e, id, n))
  {
    FailureCounts(digest, e, id, n - 1);
    var before, after := Waiting(e, id, n - 1), Waiting(e, id, n);
    LeadsTwo(digest, Empty, Failures(e, id, n - 1), before, Read(0, id), PublishFails(0), after);
  }

  lemma {:induction false} FailuresCount(digest: Digest, e: EventId, id: OutboxId, n: nat)
    requires n < MAX_PUBLISH_ATTEMPTS
    ensures Leads(digest, Empty, Failures(e, id, n), Waiting(e, id, n))
  {
    if n == 0 {
      NoFailureYet(digest, e, id, n);
    } else {
      FailuresCount(digest, e, id, n - 1);
      NextFailureCounts(digest, e, id, n);
    }
  }

  /** A failed publish leaves a published row alone up to its nineteenth failure, and no longer. */
  lemma FailedPublishSparesPublished(s: State, id: OutboxId)
    requires IsPublished(s, id)
    ensures IsPublished(MarkPublishFailed(s, id), id) <==> s.outbox[id].attempts + 1 < MAX_PUBLISH_ATTEMPTS
  {
  }

  function Read2(e: EventId, id: OutboxId, n: nat): State {
    Waiting(e, id, n).(agents := map[1 := HasRead(id, e), 2 := HasRead(id, e)])
  }

  /** Two publishers have both read the waiting row; the first adds and marks it. */
  function Raced(digest: Digest, e: EventId, id: OutboxId, n: nat): State {
    Marked(AddToQueue(Waiting(e, id, n), digest(id), e), id, e, Some(Received)).(agents := map[2 := HasRead(id, e)])
  }

  lemma RaceAdds(digest: Digest, e: EventId, id: OutboxId, n: nat)
    ensures Next(digest, Next(digest, Next(digest, Read2(e, id, n), Add(1)), BeginMark(1)), Mark(1))
      == Raced(digest, e, id, n)
  {
    var agents := map[1 := HasRead(id, e), 2 := HasRead(id, e)];
    assert agents[1 := HasAdded(id, e)][1 := Marking(id, e, Some(Received))] - {1} == map[2 := HasRead(id, e)];
  }

  function Race(id: OutboxId): seq<Step> {
    [Read(1, id)] + [Read(2, id)] + ([Add(1)] + [BeginMark(1)] + [Mark(1)])
  }

  lemma RaceLeads(digest: Digest, e: EventId, id: OutboxId, n: nat)
    ensures Leads(digest, Waiting(e, id, n), Race(id), Raced(digest, e, id, n))
  {
    RunTwo(digest, Waiting(e, id, n), Read(1, id), Read(2, id));
    assert map[1 := HasRead(id, e)][2 := HasRead(id, e)] == map[1 := HasRead(id, e), 2 := HasRead(id, e)];
    RunThree(digest, Read2(e, id, n), Add(1), BeginMark(1), Mark(1));
    RaceAdds(digest, e, id, n);
    var both, marks := [Read(1, id)] + [Read(2, id)], [Add(1)] + [BeginMark(1)] + [Mark(1)];
    LeadsFar(digest, Waiting(e, id, n), both, Read2(e, id, n), marks, Raced(digest, e, id, n));
  }

  /** After nineteen failed publishes two publishers read the row; one publishes it, and the
      failure of the other turns the published row to failed. */
  lemma {:induction false} TwentiethFailureUnpublishes(digest: Digest, e: EventId, id: OutboxId)
    ensures IsPublished(Run(digest, Empty, Failures(e, id, 19) + Race(id)), id)
    ensures !IsPublished(Run(digest, Empty, Failures(e, id, 19) + Race(id) + [PublishFails(2)]), id)
  {
    var raced := Raced(digest, e, id, 19);
    FailuresCount(digest, e, id, 19);
    RaceLeads(digest, e, id, 19);
    LeadsFar(digest, Empty, Failures(e, id, 19), Waiting(e, id, 19), Race(id), raced);
    FailedPublishSparesPublished(raced, id);
    LeadsOn(digest, Empty, Failures(e, id, 19) + Race(id), raced, PublishFails(2), PublishFailsStep(raced, 2));
  }
}
