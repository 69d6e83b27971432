/** The status of an event over any run of the ingest pipeline: when a late write moves it back, and
    what its observation says about it (packages/db/src/ingest-status.ts,
    packages/db/src/repos/source-event.ts, packages/queue/src/process.ts). */
module IngestStatus {
  import opened Common
  import opened IngestPipeline

  /** How far along an event is; the two final states are equally far. */
  function Rank(s: Status): nat {
    match s case Received => 0 case Queued => 1 case Processing => 2 case Processed => 3 case Failed => 3
  }

  predicate Final(s: Status) { s == Processed || s == Failed }

  /** Moves never lower the rank and never leave a final state. */
  predicate Forward(from: Status, to: Status) {
    Rank(from) <= Rank(to) && (Final(from) ==> to == from)
  }

  predicate Done(s: State, e: EventId) {
    e in s.events && s.events[e] == Processed
  }

  /** The write a step commits, if it commits one. */
  function WriteOf(s: State, a: Step): Option<Write> {
    match a
    case Mark(p) => if p in s.agents && s.agents[p].Marking? then WriteBy(s.events, s.agents[p]) else None
    case Fail(p) => if p in s.agents && s.agents[p].Failing? then WriteBy(s.events, s.agents[p]) else None
    case Commit(p, normalizes) =>
      if normalizes && p in s.agents && s.agents[p].Working? then WriteBy(s.events, s.agents[p]) else None
    case _ => None
  }

  predicate Writes(s: State, a: Step, e: EventId) {
    WriteOf(s, a).Some? && WriteOf(s, a).value.event == e
  }

  predicate Commits(s: State, a: Step, e: EventId) {
    Writes(s, a, e) && WriteOf(s, a).value.to == Processed
  }

  // ----- What a step does to events and observations -----

  predicate Writing(a: Step) { a.Mark? || a.Fail? || a.Commit? }

  ghost predicate SameStory(s: State, s': State) {
    s'.events == s.events && s'.observations == s.observations && s'.normalized == s.normalized
  }

  lemma PublishingIsQuiet(digest: Digest, s: State, a: Step)
    requires a.Add? || a.PublishFails? || a.ScheduledClose?
    ensures SameStory(s, Next(digest, s, a))
  {
  }

  lemma ReadingIsQuiet(digest: Digest, s: State, a: Step)
    requires a.Read? || a.BeginMark? || a.Open? || a.Check? || a.BeginFail? || a.Crash? || a.RemoveEntry?
    ensures SameStory(s, Next(digest, s, a))
  {
  }

  lemma QuietSteps(digest: Digest, s: State, a: Step)
    requires !Writing(a) && !a.Ingest?
    ensures SameStory(s, Next(digest, s, a))
  {
    if a.Add? || a.PublishFails? || a.ScheduledClose? {
      PublishingIsQuiet(digest, s, a);
    } else {
      ReadingIsQuiet(digest, s, a);
    }
  }

  lemma WritingSteps(digest: Digest, s: State, a: Step)
    requires Writing(a)
    ensures Next(digest, s, a).events == Stored(s.events, WriteOf(s, a))
    ensures WriteOf(s, a).Some? ==> WriteOf(s, a).value.event in s.events
  {
  }

  lemma MarksDoNotObserve(digest: Digest, s: State, a: Step)
    requires a.Mark? || a.Fail?
    ensures Next(digest, s, a).observations == s.observations && Next(digest, s, a).normalized == s.normalized
  {
  }

  lemma CommitObserves(digest: Digest, s: State, a: Step)
    requires a.Commit?
    ensures var s' := Next(digest, s, a);
      if WriteOf(s, a).Some? then
        var seen := Observe(s, WriteOf(s, a).value.event);
        s'.observations == seen.observations && s'.normalized == seen.normalized
      else s'.observations == s.observations && s'.normalized == s.normalized
  {
  }

  lemma EventsAfter(digest: Digest, s: State, a: Step, e: EventId)
    ensures e in s.events ==>
      e in Next(digest, s, a).events
      && Next(digest, s, a).events[e] == if Writes(s, a, e) then WriteOf(s, a).value.to else s.events[e]
    ensures e !in s.events && e in Next(digest, s, a).events ==> Next(digest, s, a).events[e] == Received
    ensures Writes(s, a, e) ==> e in s.events
  {
    if Writing(a) {
      WritingSteps(digest, s, a);
    } else if !a.Ingest? {
      QuietSteps(digest, s, a);
    }
  }

  lemma WhoCommits(s: State, a: Step)
    ensures WriteOf(s, a).Some? ==> (WriteOf(s, a).value.to == Processed <==> a.Commit?)
  {
  }

  lemma ObservationsAfter(digest: Digest, s: State, a: Step, e: EventId)
    ensures Next(digest, s, a).observations[e]
      == if Commits(s, a, e) && s.observations[e] == 0 then 1 else s.observations[e]
  {
    WhoCommits(s, a);
    if a.Commit? {
      CommitObserves(digest, s, a);
    } else if Writing(a) {
      MarksDoNotObserve(digest, s, a);
    } else if !a.Ingest? {
      QuietSteps(digest, s, a);
    }
  }

  lemma LogAfter(digest: Digest, s: State, a: Step)
    requires multiset(s.normalized) == s.observations
    ensures multiset(Next(digest, s, a).normalized) == Next(digest, s, a).observations
  {
    if a.Commit? {
      CommitObserves(digest, s, a);
    } else if Writing(a) {
      MarksDoNotObserve(digest, s, a);
    } else if !a.Ingest? {
      QuietSteps(digest, s, a);
    }
  }

  // ----- When a write moves an event back -----

  /** A write that the stored status would not have admitted, though the status read did, and that
      changes it. */
  predicate Overwrites(s: State, a: Step, e: EventId) {
    Writes(s, a, e) && e in s.events
    && !CanTransition(s.events[e], WriteOf(s, a).value.via) && s.events[e] != WriteOf(s, a).value.to
  }

  lemma OverwritesMoveBack(digest: Digest, s: State, a: Step, e: EventId)
    requires e in s.events
    ensures e in Next(digest, s, a).events
    ensures Forward(s.events[e], Next(digest, s, a).events[e]) <==> !Overwrites(s, a, e)
  {
    EventsAfter(digest, s, a, e);
  }

  lemma OverwritesAreStale(s: State, a: Step, e: EventId)
    requires Overwrites(s, a, e)
    ensures var w := WriteOf(s, a).value; CanTransition(w.seen, w.via) && w.seen != s.events[e]
  {
  }

  /** The state before step `n`. */
  function At(digest: Digest, steps: seq<Step>, n: nat): State
    requires n <= |steps|
  {
    Run(digest, Empty, steps[..n])
  }

  lemma AtNext(digest: Digest, steps: seq<Step>, n: nat)
    requires n < |steps|
    ensures At(digest, steps, n + 1) == Next(digest, At(digest, steps, n), steps[n])
  {
    assert steps[..n + 1] == steps[..n] + [steps[n]];
    RunSnoc(digest, Empty, steps[..n], steps[n]);
  }

  lemma AtOfLonger(digest: Digest, steps: seq<Step>, a: Step, n: nat)
    requires n <= |steps|
    ensures At(digest, steps + [a], n) == At(digest, steps, n)
  {
    assert (steps + [a])[..n] == steps[..n];
  }

  ghost predicate NothingOverwritten(digest: Digest, steps: seq<Step>) {
    forall n: nat, e :: n < |steps| ==> !Overwrites(At(digest, steps, n), steps[n], e)
  }

  predicate ForwardFor(before: State, after: State, e: EventId) {
    e in before.events ==> e in after.events && Forward(before.events[e], after.events[e])
  }

  ghost predicate ForwardBetween(digest: Digest, steps: seq<Step>, m: nat, n: nat, e: EventId)
    requires m <= n <= |steps|
  {
    ForwardFor(At(digest, steps, m), At(digest, steps, n), e)
  }

  lemma ForwardOneMore(digest: Digest, first: State, s: State, a: Step, e: EventId)
    requires ForwardFor(first, s, e) && !Overwrites(s, a, e)
    ensures ForwardFor(first, Next(digest, s, a), e)
  {
    if e in first.events { OverwritesMoveBack(digest, s, a, e); }
  }

  lemma ForwardStep(digest: Digest, steps: seq<Step>, m: nat, n: nat, e: EventId)
    requires m < n <= |steps| && ForwardBetween(digest, steps, m, n - 1, e)
    requires !Overwrites(At(digest, steps, n - 1), steps[n - 1], e)
    ensures ForwardBetween(digest, steps, m, n, e)
  {
    AtNext(digest, steps, n - 1);
    ForwardOneMore(digest, At(digest, steps, m), At(digest, steps, n - 1), steps[n - 1], e);
  }

  lemma {:induction false} ForwardThroughout(digest: Digest, steps: seq<Step>, m: nat, n: nat, e: EventId)
    requires NothingOverwritten(digest, steps) && m <= n <= |steps|
    ensures ForwardBetween(digest, steps, m, n, e)
    decreases n
  {
    if m < n {
      ForwardThroughout(digest, steps, m, n - 1, e);
      assert !Overwrites(At(digest, steps, n - 1), steps[n - 1], e);
      ForwardStep(digest, steps, m, n, e);
    }
  }

  /** Over any run: statuses only ever move forward, and the final ones absorb, exactly when no
      write overwrites a status that would not have admitted it. */
  lemma StatusOnlyMovesForward(digest: Digest, steps: seq<Step>)
    ensures (forall m: nat, n: nat, e :: m <= n <= |steps| ==> ForwardBetween(digest, steps, m, n, e))
      <==> NothingOverwritten(digest, steps)
  {
    if NothingOverwritten(digest, steps) {
      forall m: nat, n: nat, e | m <= n <= |steps| ensures ForwardBetween(digest, steps, m, n, e) {
        ForwardThroughout(digest, steps, m, n, e);
      }
    } else {
      var n: nat, e :| n < |steps| && Overwrites(At(digest, steps, n), steps[n], e);
      AtNext(digest, steps, n);
      OverwritesMoveBack(digest, At(digest, steps, n), steps[n], e);
      assert !ForwardBetween(digest, steps, n, n + 1, e);
    }
  }

  /** Every write finds the status it was judged by. */
  ghost predicate FreshWrites(digest: Digest, steps: seq<Step>) {
    forall n: nat, e :: n < |steps| && Writes(At(digest, steps, n), steps[n], e) ==>
      SeenIn(At(digest, steps, n).events, e) == Some(WriteOf(At(digest, steps, n), steps[n]).value.seen)
  }

  lemma FreshRunsOverwriteNothing(digest: Digest, steps: seq<Step>)
    requires FreshWrites(digest, steps)
    ensures NothingOverwritten(digest, steps)
  {
    forall n: nat, e | n < |steps| ensures !Overwrites(At(digest, steps, n), steps[n], e) {
      if Overwrites(At(digest, steps, n), steps[n], e) {
        OverwritesAreStale(At(digest, steps, n), steps[n], e);
        assert false;
      }
    }
  }

  // ----- Observed at most once, in every run -----

  ghost predicate Kept(s: State, e: EventId) {
    && (e in s.events ==> s.events[e] != Processing)
    && s.observations[e] <= 1
    && (Done(s, e) ==> s.observations[e] == 1)
  }

  lemma StepKeeps(digest: Digest, s: State, a: Step, e: EventId)
    requires Kept(s, e)
    ensures Kept(Next(digest, s, a), e)
  {
    EventsAfter(digest, s, a, e);
    ObservationsAfter(digest, s, a, e);
  }

  lemma {:induction false} RunKeeps(digest: Digest, steps: seq<Step>, e: EventId)
    ensures Kept(Run(digest, Empty, steps), e)
    ensures multiset(Run(digest, Empty, steps).normalized) == Run(digest, Empty, steps).observations
  {
    if steps != [] {
      var front, a := steps[..|steps| - 1], steps[|steps| - 1];
      RunKeeps(digest, front, e);
      StepKeeps(digest, Run(digest, Empty, front), a, e);
      LogAfter(digest, Run(digest, Empty, front), a);
    }
  }

  lemma TwiceInSequence(log: seq<EventId>, i: nat, j: nat)
    requires i < j < |log| && log[i] == log[j]
    ensures multiset(log)[log[i]] >= 2
  {
    assert log == log[..j] + log[j..];
    assert multiset(log) == multiset(log[..j]) + multiset(log[j..]);
    assert log[i] in log[..j] && log[j] in log[j..];
    assert log[i] in multiset(log[..j]) && log[i] in multiset(log[j..]);
  }

  /** In every committed state of every run, stale writes included: no event is left in `processing`,
      none is observed or normalized twice, and a processed one is observed. */
  lemma {:induction false} ObservedAtMostOnce(digest: Digest, steps: seq<Step>)
    ensures var s := Run(digest, Empty, steps);
      && (forall e :: Kept(s, e))
      && (forall i, j :: 0 <= i < j < |s.normalized| ==> s.normalized[i] != s.normalized[j])
  {
    var s := Run(digest, Empty, steps);
    forall e ensures Kept(s, e) {
      RunKeeps(digest, steps, e);
    }
    forall i, j | 0 <= i < j < |s.normalized| ensures s.normalized[i] != s.normalized[j] {
      RunKeeps(digest, steps, s.normalized[i]);
      if s.normalized[i] == s.normalized[j] {
        TwiceInSequence(s.normalized, i, j);
      }
    }
  }

  /** In a reachable state a write overwrites a status exactly when that status is final and not the
      one it writes. */
  lemma {:induction false} OnlyFinalStatusesAreLost(digest: Digest, steps: seq<Step>, a: Step, e: EventId)
    ensures var s := Run(digest, Empty, steps);
      Overwrites(s, a, e)
      <==> Writes(s, a, e) && e in s.events && Final(s.events[e]) && s.events[e] != WriteOf(s, a).value.to
  {
    RunKeeps(digest, steps, e);
  }

  // ----- Processed exactly when observed -----

  /** A write loses the `processed` of an event, and no worker has processed the event again since. */
  ghost predicate LostAt(digest: Digest, steps: seq<Step>, n: nat, e: EventId) {
    && n < |steps| && Done(At(digest, steps, n), e) && Overwrites(At(digest, steps, n), steps[n], e)
    && forall m: nat :: n < m < |steps| ==> !Commits(At(digest, steps, m), steps[m], e)
  }

  ghost predicate Lost(digest: Digest, steps: seq<Step>, e: EventId) {
    exists n: nat :: LostAt(digest, steps, n, e)
  }

  lemma {:induction false} LostAppends(digest: Digest, steps: seq<Step>, a: Step, e: EventId)
    ensures var s := Run(digest, Empty, steps);
      Lost(digest, steps + [a], e)
      <==> (Done(s, e) && Overwrites(s, a, e)) || (Lost(digest, steps, e) && !Commits(s, a, e))
  {
    var longer, s := steps + [a], Run(digest, Empty, steps);
    assert steps[..|steps|] == steps;
    forall n: nat | n <= |steps| ensures At(digest, longer, n) == At(digest, steps, n) {
      AtOfLonger(digest, steps, a, n);
    }
    if Lost(digest, steps, e) && !Commits(s, a, e) {
      var n: nat :| LostAt(digest, steps, n, e);
      assert LostAt(digest, longer, n, e);
    }
    if Done(s, e) && Overwrites(s, a, e) {
      assert LostAt(digest, longer, |steps|, e);
    }
    if Lost(digest, longer, e) {
      var n: nat :| LostAt(digest, longer, n, e);
      if n < |steps| {
        assert !Commits(At(digest, longer, |steps|), longer[|steps|], e);
        assert LostAt(digest, steps, n, e);
      }
    }
  }

  lemma StepLoses(digest: Digest, s: State, a: Step, e: EventId)
    requires Kept(s, e)
    ensures var s' := Next(digest, s, a);
      s'.observations[e] == 1 && !Done(s', e)
      <==> (Done(s, e) && Overwrites(s, a, e)) || (s.observations[e] == 1 && !Done(s, e) && !Commits(s, a, e))
  {
    EventsAfter(digest, s, a, e);
    ObservationsAfter(digest, s, a, e);
  }

  ghost predicate LossesAccount(digest: Digest, steps: seq<Step>, e: EventId) {
    var s := Run(digest, Empty, steps);
    s.observations[e] == 1 && !Done(s, e) <==> Lost(digest, steps, e)
  }

  lemma LossesAccountOn(digest: Digest, steps: seq<Step>, a: Step, e: EventId)
    requires LossesAccount(digest, steps, e)
    ensures LossesAccount(digest, steps + [a], e)
  {
    RunKeeps(digest, steps, e);
    StepLoses(digest, Run(digest, Empty, steps), a, e);
    LostAppends(digest, steps, a, e);
    RunSnoc(digest, Empty, steps, a);
  }

  lemma {:induction false} LossesAlwaysAccount(digest: Digest, steps: seq<Step>, e: EventId)
    ensures LossesAccount(digest, steps, e)
  {
    if steps != [] {
      LossesAlwaysAccount(digest, steps[..|steps| - 1], e);
      LossesAccountOn(digest, steps[..|steps| - 1], steps[|steps| - 1], e);
      assert steps == steps[..|steps| - 1] + [steps[|steps| - 1]];
    }
  }

  /** Over any run: an event is processed exactly when it is observed, once, and its status has not
      been lost to a stale write since a worker last processed it. */
  lemma {:induction false} ProcessedIffObservedOnce(digest: Digest, steps: seq<Step>, e: EventId)
    ensures var s := Run(digest, Empty, steps);
      && (Done(s, e) <==> s.observations[e] == 1 && !Lost(digest, steps, e))
      && (Lost(digest, steps, e) ==> s.observations[e] == 1)
  {
    RunKeeps(digest, steps, e);
    LossesAlwaysAccount(digest, steps, e);
  }

  /** Where no status is overwritten, as in every run whose writes find the status they read:
      processed exactly when observed, and observed at most once. */
  lemma {:induction false} UndisturbedRunsSettle(digest: Digest, steps: seq<Step>, e: EventId)
    requires NothingOverwritten(digest, steps)
    ensures var s := Run(digest, Empty, steps);
      s.observations[e] == (if Done(s, e) then 1 else 0)
  {
    RunKeeps(digest, steps, e);
    ProcessedIffObservedOnce(digest, steps, e);
  }

  /** Runs in which every write finds the status it read keep all that the table promises. */
  lemma {:induction false} FreshRunsKeepThePromises(digest: Digest, steps: seq<Step>)
    requires FreshWrites(digest, steps)
    ensures forall m: nat, n: nat, e :: m <= n <= |steps| ==> ForwardBetween(digest, steps, m, n, e)
    ensures var s := Run(digest, Empty, steps); forall e :: s.observations[e] == if Done(s, e) then 1 else 0
  {
    FreshRunsOverwriteNothing(digest, steps);
    StatusOnlyMovesForward(digest, steps);
    forall e ensures Run(digest, Empty, steps).observations[e] == if Done(Run(digest, Empty, steps), e) then 1 else 0 {
      UndisturbedRunsSettle(digest, steps, e);
    }
  }

  // ----- Runs that lose a status -----

  /** A transaction that read `received` and waits to write. */
  predicate WaitsToWrite(s: State, e: EventId, a: Step) {
    && 0 in s.agents && 1 !in s.agents && e in s.events && s.events[e] == Received && s.observations[e] == 0
    && ((a == Mark(0) && s.agents[0].Marking?) || (a == Fail(0) && s.agents[0].Failing?))
    && s.agents[0].event == e && s.agents[0].seen == Some(Received)
  }

  lemma CommitThenWrite(digest: Digest, s: State, e: EventId, a: Step)
    requires WaitsToWrite(s, e, a)
    ensures var worked := Committed(s, e, Some(Received), true);
      && Done(worked, e)
      && var end := Next(digest, worked, a);
      e in end.events && end.events[e] == (if a.Mark? then Queued else Failed) && end.observations[e] == 1
  {
    EventsAfter(digest, Committed(s, e, Some(Received), true), a, e);
    ObservationsAfter(digest, Committed(s, e, Some(Received), true), a, e);
  }

  /** Whatever has come before: when a worker commits between its read and its write, the write
      takes the event's `processed` away. */
  lemma {:induction false} LateWriteLoses(digest: Digest, steps: seq<Step>, s: State, e: EventId, a: Step)
    requires Leads(digest, Empty, steps, s) && WaitsToWrite(s, e, a)
    ensures Done(Run(digest, Empty, steps + Attempt(1, e)), e)
    ensures var end := Run(digest, Empty, steps + Attempt(1, e) + [a]);
      e in end.events && end.events[e] == (if a.Mark? then Queued else Failed) && end.observations[e] == 1
  {
    var worked := Committed(s, e, Some(Received), true);
    AttemptUnfolds(digest, s, 1, e);
    LeadsFar(digest, Empty, steps, s, Attempt(1, e), worked);
    LeadsOn(digest, Empty, steps + Attempt(1, e), worked, a, Next(digest, worked, a));
    CommitThenWrite(digest, s, e, a);
  }

  /** The ordinary publish: its mark reads `received`, the worker takes the entry and commits, the
      mark writes `queued`. */
  lemma LateQueuedLosesProcessed(digest: Digest, e: EventId, id: OutboxId)
    ensures var marking := [Ingest(e, id)] + [Read(0, id)] + [Add(0)] + [BeginMark(0)];
      && Done(Run(digest, Empty, marking + Attempt(1, e)), e)
      && var end := Run(digest, Empty, marking + Attempt(1, e) + [Mark(0)]);
      e in end.events && end.events[e] == Queued && end.observations[e] == 1
  {
    var read := WithAgent(Waiting(e, id, 0), 0, HasRead(id, e));
    var added := WithAgent(AddToQueue(Waiting(e, id, 0), digest(id), e), 0, HasAdded(id, e));
    IngestWaits(digest, e, id);
    LeadsOn(digest, Empty, [Ingest(e, id)], Waiting(e, id, 0), Read(0, id), read);
    AddAfterRead(digest, Waiting(e, id, 0), 0, id, e);
    LeadsOn(digest, Empty, [Ingest(e, id)] + [Read(0, id)], read, Add(0), added);
    LeadsOn(digest, Empty, [Ingest(e, id)] + [Read(0, id)] + [Add(0)], added, BeginMark(0), BeginMarkStep(added, 0));
    var steps := [Ingest(e, id)] + [Read(0, id)] + [Add(0)] + [BeginMark(0)];
    LateWriteLoses(digest, steps, BeginMarkStep(added, 0), e, Mark(0));
  }

  /** The same for a failure mark. */
  lemma LateFailedLosesProcessed(digest: Digest, e: EventId, id: OutboxId)
    ensures var failing := [Ingest(e, id)] + [BeginFail(0, e)];
      && Done(Run(digest, Empty, failing + Attempt(1, e)), e)
      && var end := Run(digest, Empty, failing + Attempt(1, e) + [Fail(0)]);
      e in end.events && end.events[e] == Failed && end.observations[e] == 1
  {
    var begun := WithAgent(Waiting(e, id, 0), 0, Failing(e, Some(Received)));
    IngestWaits(digest, e, id);
    LeadsOn(digest, Empty, [Ingest(e, id)], Waiting(e, id, 0), BeginFail(0, e), begun);
    LateWriteLoses(digest, [Ingest(e, id)] + [BeginFail(0, e)], begun, e, Fail(0));
  }

  /** A worker that read `received` and has yet to write. */
  predicate AboutToWork(s: State, e: EventId) {
    && 0 in s.agents && 1 !in s.agents && e in s.events && s.events[e] == Received
    && s.agents[0] == Working(e, Some(Received))
  }

  lemma FailFirst(digest: Digest, s: State, e: EventId)
    requires AboutToWork(s, e)
    ensures Next(digest, Next(digest, s, BeginFail(1, e)), Fail(1)) == s.(events := s.events[e := Failed])
  {
    FailAfterBegin(digest, s, 1, e, Some(Received));
  }

  lemma ThenCommit(digest: Digest, s: State, e: EventId)
    requires AboutToWork(s, e)
    ensures Done(Next(digest, s.(events := s.events[e := Failed]), Commit(0, true)), e)
  {
    EventsAfter(digest, s.(events := s.events[e := Failed]), Commit(0, true), e);
  }

  lemma {:induction false} LateCommitRevives(digest: Digest, steps: seq<Step>, s: State, e: EventId)
    requires Leads(digest, Empty, steps, s) && AboutToWork(s, e)
    ensures var failed := Run(digest, Empty, steps + [BeginFail(1, e)] + [Fail(1)]);
      e in failed.events && failed.events[e] == Failed
    ensures Done(Run(digest, Empty, steps + [BeginFail(1, e)] + [Fail(1)] + [Commit(0, true)]), e)
  {
    var failed := s.(events := s.events[e := Failed]);
    FailFirst(digest, s, e);
    ThenCommit(digest, s, e);
    LeadsTwo(digest, Empty, steps, s, BeginFail(1, e), Fail(1), failed);
    var end := Next(digest, failed, Commit(0, true));
    LeadsOn(digest, Empty, steps + [BeginFail(1, e)] + [Fail(1)], failed, Commit(0, true), end);
  }

  /** And a worker that read the status before a failure mark committed makes the failed event processed. */
  lemma LateCommitRevivesFailed(digest: Digest, e: EventId, id: OutboxId)
    ensures var working := [Ingest(e, id)] + [Open(0, e, true)] + [Check(0)];
      var failed := Run(digest, Empty, working + [BeginFail(1, e)] + [Fail(1)]);
      && e in failed.events && failed.events[e] == Failed
      && Done(Run(digest, Empty, working + [BeginFail(1, e)] + [Fail(1)] + [Commit(0, true)]), e)
  {
    var waiting := Waiting(e, id, 0);
    IngestWaits(digest, e, id);
    CheckAfterOpen(digest, waiting, 0, e);
    var working := WithAgent(waiting, 0, Working(e, Some(Received)));
    LeadsTwo(digest, Empty, [Ingest(e, id)], waiting, Open(0, e, true), Check(0), working);
    LateCommitRevives(digest, [Ingest(e, id)] + [Open(0, e, true)] + [Check(0)], working, e);
  }
}
