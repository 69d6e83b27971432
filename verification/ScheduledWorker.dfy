/** The scheduled batch executor (apps/worker/src/scheduled-worker.ts): claim, process and
    close jobs under a deadline, then close the run. Every outcome of every dependency is
    scripted, throws and timeouts included. */
module ScheduledWorker {
  import opened Common
  import WorkerSchedule

  const MAX_JOBS: int := 60
  const LAST_ATTEMPT: int := 3

  datatype Job = Job(id: string, attempt: int)

  datatype Run = Run(id: string, maxJobs: int, deadline: int, metered: bool)

  datatype RunStatus = Completed | RunFailed | Indeterminate

  datatype JobState = Processed | Retry | JobFailed | JobIndeterminate

  datatype Claim = ClaimThrows | NoJob | Got(job: Job)

  datatype Work = Succeeds | TimesOut | Throws(unrecoverable: bool)

  /** What the dependencies answer in one turn of the loop. `closes` and `recloses` say whether
      the first and the second `finishJob` of the turn return. */
  datatype Turn = Turn(
    stopping: bool, now: int, claim: Claim, inScope: bool, work: Work, closes: bool, recloses: bool)

  /** One `finishJob` call and whether it returned. */
  datatype Close = Close(state: JobState, returned: bool)

  /** One claimed job and everything done with it. */
  datatype Handled = Handled(job: Job, turn: Turn, closes: seq<Close>)

  /** Where the loop goes after a turn: on, out of it, or to the outer catch. */
  datatype Flow = Continue | Leave | Escape

  function FailureState(job: Job, unrecoverable: bool): JobState {
    if unrecoverable || job.attempt >= LAST_ATTEMPT then JobFailed else Retry
  }

  /** The second close, in the catch around processing. */
  function Reclose(t: Turn, job: Job): Close {
    Close(FailureState(job, t.work.Throws? && t.work.unrecoverable), if t.work.Throws? then t.closes else t.recloses)
  }

  function ClosesOf(t: Turn, job: Job): seq<Close> {
    if !t.inScope then [Close(JobFailed, t.closes)]
    else match t.work
      case Throws(_) => [Reclose(t, job)]
      case Succeeds => if t.closes then [Close(Processed, true)] else [Close(Processed, false), Reclose(t, job)]
      case TimesOut =>
        if t.closes then [Close(JobIndeterminate, true)] else [Close(JobIndeterminate, false), Reclose(t, job)]
  }

  function FlowOf(t: Turn, job: Job): Flow {
    if !t.inScope then if t.closes then Continue else Escape
    else if t.closes then if t.work.TimesOut? then Leave else Continue
    else if !t.work.Throws? && t.recloses then Continue
    else Escape
  }

  /** The loop so far: handled jobs, status, and how it goes on. */
  datatype Batch = Batch(handled: seq<Handled>, status: RunStatus, flow: Flow)

  function TakeTurn(b: Batch, t: Turn, run: Run): Batch {
    if t.stopping || t.now >= run.deadline then b.(flow := Leave)
    else match t.claim
      case ClaimThrows => b.(flow := Escape)
      case NoJob => b.(flow := Leave)
      case Got(job) =>
        Batch(b.handled + [Handled(job, t, ClosesOf(t, job))],
              if t.inScope && t.work.TimesOut? then Indeterminate else b.status, FlowOf(t, job))
  }

  /** The loop after at most `n` turns. */
  function Loop(script: nat -> Turn, run: Run, n: nat): Batch {
    if n == 0 then Batch([], Completed, Continue)
    else
      var b := Loop(script, run, n - 1);
      if b.flow == Continue then TakeTurn(b, script(n - 1), run) else b
  }

  function Limit(run: Run): nat { Max(0, Min(run.maxJobs, MAX_JOBS)) }

  // ----- The cycle -----

  datatype ClaimRun = RunClaimThrows | NoRun | GotRun(run: Run)

  datatype Deps = Deps(
    now: int, stopping: bool, claimRun: ClaimRun, meteredThrows: bool, prepareThrows: bool,
    finishRunThrows: bool, script: nat -> Turn)

  datatype CycleResult = OutsideWindow | NotAdmitted | Rejected | Ended(status: RunStatus)

  /** The observable effects of a cycle. */
  datatype Cycle = Cycle(result: CycleResult, handled: seq<Handled>, runCloses: seq<RunStatus>)

  function BatchOf(deps: Deps, run: Run): Batch {
    if run.metered then Batch([], if deps.meteredThrows then Indeterminate else Completed, Leave)
    else if deps.prepareThrows then Batch([], Indeterminate, Escape)
    else
      var b := Loop(deps.script, run, Limit(run));
      if b.flow == Escape then b.(status := Indeterminate) else b
  }

  predicate InWindow(deps: Deps) {
    var slot := WorkerSchedule.ScheduledSlot(deps.now, 1);
    !deps.stopping && slot.Ok? && slot.value.Some?
  }

  function CycleOf(deps: Deps): Cycle {
    if !InWindow(deps) then Cycle(OutsideWindow, [], [])
    else match deps.claimRun
      case RunClaimThrows => Cycle(Rejected, [], [])
      case NoRun => Cycle(NotAdmitted, [], [])
      case GotRun(run) =>
        var b := BatchOf(deps, run);
        Cycle(if deps.finishRunThrows then Rejected else Ended(b.status), b.handled, [b.status])
  }

  /** Process one claimed job and close it; a failing close of a processed or timed-out job
      lands in the same catch as a failing job and closes it a second time. */
  method HandleJob(t: Turn, job: Job) returns (closes: seq<Close>, flow: Flow, timedOut: bool)
    ensures closes == ClosesOf(t, job) && flow == FlowOf(t, job)
    ensures timedOut <==> t.inScope && t.work.TimesOut?
  {
    closes, timedOut := [], false;
    if !t.inScope {
      closes := closes + [Close(JobFailed, t.closes)];
      return closes, if t.closes then Continue else Escape, false;
    }
    var unrecoverable, thrown := false, false;
    match t.work {
      case TimesOut =>
        timedOut := true;
        closes := closes + [Close(JobIndeterminate, t.closes)];
        if t.closes { return closes, Leave, timedOut; }
      case Succeeds =>
        closes := closes + [Close(Processed, t.closes)];
        if t.closes { return closes, Continue, timedOut; }
      case Throws(u) =>
        unrecoverable, thrown := u, true;
    }
    var returned := if thrown then t.closes else t.recloses;
    closes := closes + [Close(FailureState(job, unrecoverable), returned)];
    flow := if returned then Continue else Escape;
  }

  lemma {:induction false} LoopStops(script: nat -> Turn, run: Run, i: nat, n: nat)
    requires i <= n && Loop(script, run, i).flow != Continue
    ensures Loop(script, run, n) == Loop(script, run, i)
  {
    if i < n { LoopStops(script, run, i, n - 1); }
  }

  /** One more turn of a loop that goes on; the last one unless it goes on again. */
  lemma NextTurn(script: nat -> Turn, run: Run, i: nat, n: nat)
    requires i < n && Loop(script, run, i).flow == Continue
    ensures Loop(script, run, i + 1) == TakeTurn(Loop(script, run, i), script(i), run)
    ensures Loop(script, run, i + 1).flow != Continue ==> Loop(script, run, n) == Loop(script, run, i + 1)
  {
    if Loop(script, run, i + 1).flow != Continue { LoopStops(script, run, i + 1, n); }
  }

  method RunJobs(script: nat -> Turn, run: Run) returns (b: Batch)
    ensures b == Loop(script, run, Limit(run))
  {
    var handled: seq<Handled>, status := [], Completed;
    for i := 0 to Limit(run)
      invariant Loop(script, run, i) == Batch(handled, status, Continue)
    {
      var t := script(i);
      NextTurn(script, run, i, Limit(run));
      if t.stopping || t.now >= run.deadline {
        return Batch(handled, status, Leave);
      }
      if t.claim.ClaimThrows? {
        return Batch(handled, status, Escape);
      }
      if t.claim.NoJob? {
        return Batch(handled, status, Leave);
      }
      var closes, flow, timedOut := HandleJob(t, t.claim.job);
      handled := handled + [Handled(t.claim.job, t, closes)];
      if timedOut { status := Indeterminate; }
      if flow != Continue {
        return Batch(handled, status, flow);
      }
    }
    return Batch(handled, status, Continue);
  }

  method ExecuteScheduledCycle(deps: Deps)
    returns (result: CycleResult, handled: seq<Handled>, runCloses: seq<RunStatus>)
    ensures Cycle(result, handled, runCloses) == CycleOf(deps)
  {
    handled, runCloses := [], [];
    if deps.stopping { return OutsideWindow, [], []; }
    var slot := WorkerSchedule.ScheduledSlot(deps.now, 1);
    if slot.Err? || slot.value.None? { return OutsideWindow, [], []; }
    if deps.claimRun.RunClaimThrows? { return Rejected, [], []; }
    if deps.claimRun.NoRun? { return NotAdmitted, [], []; }
    var run, status := deps.claimRun.run, Completed;
    if run.metered {
      if deps.meteredThrows { status := Indeterminate; }
    } else if deps.prepareThrows {
      status := Indeterminate;
    } else {
      var b := RunJobs(deps.script, run);
      handled, status := b.handled, if b.flow == Escape then Indeterminate else b.status;
    }
    runCloses := [status];
    result := if deps.finishRunThrows then Rejected else Ended(status);
  }

  // ----- What holds in every cycle -----

  lemma {:induction false} LoopClaimsAtMost(script: nat -> Turn, run: Run, n: nat)
    ensures |Loop(script, run, n).handled| <= n
  {
    if n > 0 { LoopClaimsAtMost(script, run, n - 1); }
  }

  predicate OpenTurn(t: Turn, run: Run) {
    !t.stopping && t.now < run.deadline && t.claim.Got?
  }

  /** What is true of one handled job whatever the environment does. */
  predicate Lawful(h: Handled, run: Run) {
    && OpenTurn(h.turn, run) && h.turn.claim.job == h.job && h.closes == ClosesOf(h.turn, h.job)
  }

  lemma {:induction false} LoopIsLawful(script: nat -> Turn, run: Run, n: nat)
    ensures forall i :: 0 <= i < |Loop(script, run, n).handled| ==> Lawful(Loop(script, run, n).handled[i], run)
  {
    if n > 0 { LoopIsLawful(script, run, n - 1); }
  }

  lemma ClosingRules(t: Turn, job: Job)
    ensures 1 <= |ClosesOf(t, job)| <= 2
    ensures forall k :: 0 <= k < |ClosesOf(t, job)| ==>
      && (ClosesOf(t, job)[k].state == Retry ==> job.attempt < LAST_ATTEMPT)
      && (ClosesOf(t, job)[k].state == Processed ==> t.inScope && t.work.Succeeds?)
      && (ClosesOf(t, job)[k].state == JobFailed ==>
            !t.inScope || job.attempt >= LAST_ATTEMPT || (t.work.Throws? && t.work.unrecoverable))
    ensures |ClosesOf(t, job)| == 2 <==> t.inScope && !t.work.Throws? && !t.closes
  {
  }

  /** A job put back has attempts left, one given up has none or cannot succeed, and one called
      processed had a handler that returned. */
  predicate ClosedRightly(h: Handled, c: Close) {
    && (c.state == Retry ==> h.job.attempt < LAST_ATTEMPT)
    && (c.state == Processed ==> h.turn.inScope && h.turn.work.Succeeds?)
    && (c.state == JobFailed ==>
          !h.turn.inScope || h.job.attempt >= LAST_ATTEMPT || (h.turn.work.Throws? && h.turn.work.unrecoverable))
  }

  /** Claimed before the deadline and before stopping; closed rightly, and once, or twice exactly
      when the close of a processed or timed-out job throws. */
  ghost predicate HandledLawfully(h: Handled, run: Run) {
    && OpenTurn(h.turn, run)
    && (forall k :: 0 <= k < |h.closes| ==> ClosedRightly(h, h.closes[k]))
    && |h.closes| == if h.turn.inScope && !h.turn.work.Throws? && !h.turn.closes then 2 else 1
  }

  lemma JobHandledLawfully(h: Handled, run: Run)
    requires Lawful(h, run)
    ensures HandledLawfully(h, run)
  {
    ClosingRules(h.turn, h.job);
  }

  /** Every cycle: a claimed run is closed exactly once, with the status the cycle reports, and
      without a run nothing is closed or handled; at most min(max_jobs, 60) jobs are claimed, each
      of them handled lawfully. */
  lemma CyclesAreLawful(deps: Deps)
    ensures var c := CycleOf(deps);
      && |c.runCloses| == (if InWindow(deps) && deps.claimRun.GotRun? then 1 else 0)
      && (c.result.Ended? ==> c.runCloses == [c.result.status])
      && (c.runCloses == [] ==> c.handled == [] && !c.result.Ended?)
      && (c.handled != [] ==>
            && |c.handled| <= Min(deps.claimRun.run.maxJobs, MAX_JOBS)
            && forall i :: 0 <= i < |c.handled| ==> HandledLawfully(c.handled[i], deps.claimRun.run))
  {
    var c := CycleOf(deps);
    if c.handled != [] {
      var run := deps.claimRun.run;
      LoopClaimsAtMost(deps.script, run, Limit(run));
      LoopIsLawful(deps.script, run, Limit(run));
      forall i | 0 <= i < |c.handled| ensures HandledLawfully(c.handled[i], run) {
        JobHandledLawfully(c.handled[i], run);
      }
    }
  }

  // ----- Timeouts -----

  predicate TimedOut(h: Handled) { h.turn.inScope && h.turn.work.TimesOut? }

  /** The branch that lets the loop go on after a timeout: the close as indeterminate throws,
      the second close of the same job returns. */
  predicate Resumes(t: Turn) {
    t.inScope && t.work.TimesOut? && !t.closes && t.recloses
  }

  /** Each turn but the last handles one job, so jobs and turns are numbered alike. */
  lemma {:induction false} TurnsAreJobs(script: nat -> Turn, run: Run, n: nat)
    ensures var b := Loop(script, run, n);
      && |b.handled| <= n && (b.flow == Continue ==> |b.handled| == n)
      && forall i :: 0 <= i < |b.handled| ==> b.handled[i].turn == script(i)
  {
    if n > 0 { TurnsAreJobs(script, run, n - 1); }
  }

  /** Where the loop goes after a turn that handled a job. */
  lemma HandledTurnDecides(script: nat -> Turn, run: Run, i: nat)
    requires |Loop(script, run, i + 1).handled| == i + 1
    ensures TimedOut(Loop(script, run, i + 1).handled[i]) ==>
      (Loop(script, run, i + 1).flow == Continue <==> Resumes(script(i)))
  {
    TurnsAreJobs(script, run, i);
    TurnsAreJobs(script, run, i + 1);
  }

  lemma NextTurnDecides(script: nat -> Turn, run: Run, i: nat)
    requires Loop(script, run, i + 1).flow == Continue
    ensures |Loop(script, run, i + 2).handled| == i + 2 <==> OpenTurn(script(i + 1), run)
  {
    TurnsAreJobs(script, run, i + 1);
  }

  lemma {:induction false} JobsStay(script: nat -> Turn, run: Run, m: nat, n: nat)
    requires m <= n
    ensures Loop(script, run, m).handled <= Loop(script, run, n).handled
  {
    if m < n { JobsStay(script, run, m, n - 1); }
  }

  lemma {:induction false} JobsByTurns(script: nat -> Turn, run: Run, m: nat, n: nat)
    requires m <= n
    ensures m <= |Loop(script, run, n).handled| <==> |Loop(script, run, m).handled| == m
  {
    TurnsAreJobs(script, run, m);
    if |Loop(script, run, m).handled| < m {
      LoopStops(script, run, m, n);
    } else {
      JobsStay(script, run, m, n);
    }
  }

  /** Over any run of the loop: the next job is claimed beside a timed-out one exactly when the first
      close of that one threw, the second returned, and the next turn offers a job in time. */
  lemma {:induction false} ClaimedBesideTimeout(script: nat -> Turn, run: Run, n: nat, i: nat)
    requires i < |Loop(script, run, n).handled| && i + 1 < n && TimedOut(Loop(script, run, n).handled[i])
    ensures i + 1 < |Loop(script, run, n).handled| <==> Resumes(script(i)) && OpenTurn(script(i + 1), run)
  {
    JobsByTurns(script, run, i + 1, n);
    JobsByTurns(script, run, i + 2, n);
    JobsStay(script, run, i + 1, n);
    HandledTurnDecides(script, run, i);
    if Loop(script, run, i + 1).flow == Continue {
      NextTurnDecides(script, run, i);
    }
  }

  /** No job runs after a timeout, as long as `finishJob` does not throw. */
  lemma NothingAfterTimeout(deps: Deps, i: nat)
    requires i < |CycleOf(deps).handled| && TimedOut(CycleOf(deps).handled[i])
    requires forall n: nat :: deps.script(n).closes
    ensures i == |CycleOf(deps).handled| - 1
  {
    var run := deps.claimRun.run;
    TurnsAreJobs(deps.script, run, Limit(run));
    if i + 1 < |CycleOf(deps).handled| {
      ClaimedBesideTimeout(deps.script, run, Limit(run), i);
    }
  }

  /** The case `finishJob` leaves open: a timed-out job whose first close throws is put back
      while it may still be running, and the next job is claimed beside it. */
  lemma {:induction false} TimeoutCanResume(a: Job, b: Job, run: Run, now: int)
    requires now < run.deadline && run.maxJobs >= 2 && a.attempt < LAST_ATTEMPT
    ensures var slow := Turn(false, now, Got(a), true, TimesOut, false, true);
      var next := Turn(false, now, Got(b), true, Succeeds, true, true);
      var loop := Loop((n: nat) => if n == 0 then slow else next, run, 2);
      && loop.handled == [Handled(a, slow, [Close(JobIndeterminate, false), Close(Retry, true)]),
                          Handled(b, next, [Close(Processed, true)])]
      && loop.status == Indeterminate
  {
    var slow := Turn(false, now, Got(a), true, TimesOut, false, true);
    var next := Turn(false, now, Got(b), true, Succeeds, true, true);
    var script := (n: nat) => if n == 0 then slow else next;
    assert Loop(script, run, 0) == Batch([], Completed, Continue);
    assert Loop(script, run, 1) == TakeTurn(Batch([], Completed, Continue), slow, run);
    assert Loop(script, run, 2) == TakeTurn(Loop(script, run, 1), next, run);
  }

  // ----- The reported status -----

  predicate NoTimeouts(handled: seq<Handled>) {
    handled == [] || (!TimedOut(handled[|handled| - 1]) && NoTimeouts(handled[..|handled| - 1]))
  }

  predicate ClosedAtLast(h: Handled) {
    h.closes != [] && h.closes[|h.closes| - 1].returned
  }

  predicate AllClosed(handled: seq<Handled>) {
    handled == [] || (ClosedAtLast(handled[|handled| - 1]) && AllClosed(handled[..|handled| - 1]))
  }

  lemma {:induction false} CertainAt(handled: seq<Handled>, i: nat)
    requires i < |handled|
    ensures NoTimeouts(handled) ==> !TimedOut(handled[i])
    ensures AllClosed(handled) ==> ClosedAtLast(handled[i])
  {
    if i < |handled| - 1 { CertainAt(handled[..|handled| - 1], i); }
  }

  lemma LastCloseDecides(t: Turn, job: Job)
    ensures ClosedAtLast(Handled(job, t, ClosesOf(t, job))) <==> FlowOf(t, job) != Escape
  {
  }

  lemma {:induction false} AppendedJob(handled: seq<Handled>, h: Handled)
    ensures NoTimeouts(handled + [h]) <==> NoTimeouts(handled) && !TimedOut(h)
    ensures AllClosed(handled + [h]) <==> AllClosed(handled) && ClosedAtLast(h)
  {
    assert (handled + [h])[..|handled|] == handled;
  }

  /** What a batch reports of its jobs: whether one timed out, and, unless it escaped, that all are closed. */
  predicate Honest(b: Batch) {
    && (b.status == Completed <==> NoTimeouts(b.handled))
    && (b.flow != Escape ==> AllClosed(b.handled))
  }

  lemma TurnIsHonest(b: Batch, t: Turn, run: Run)
    requires Honest(b) && b.flow == Continue
    ensures Honest(TakeTurn(b, t, run))
  {
    if OpenTurn(t, run) {
      var job := t.claim.job;
      AppendedJob(b.handled, Handled(job, t, ClosesOf(t, job)));
      LastCloseDecides(t, job);
    }
  }

  lemma {:induction false} LoopIsHonest(script: nat -> Turn, run: Run, n: nat)
    ensures Honest(Loop(script, run, n))
  {
    if n > 0 {
      LoopIsHonest(script, run, n - 1);
      if Loop(script, run, n - 1).flow == Continue {
        TurnIsHonest(Loop(script, run, n - 1), script(n - 1), run);
      }
    }
  }

  /** A batch reported as completed left nothing uncertain: no job timed out, and the last
      close of every claimed job returned. */
  lemma CompletedIsCertain(deps: Deps, i: nat)
    requires CycleOf(deps).runCloses == [Completed] && i < |CycleOf(deps).handled|
    ensures !TimedOut(CycleOf(deps).handled[i]) && ClosedAtLast(CycleOf(deps).handled[i])
  {
    var run := deps.claimRun.run;
    LoopIsHonest(deps.script, run, Limit(run));
    CertainAt(CycleOf(deps).handled, i);
  }

  // ----- tick, arm and stop -----

  datatype Phase = Running | ShuttingDown | Stopped

  datatype Event = TimerFires | CycleEnds | StopRequested | StopReturns

  datatype Shape = Shape(phase: Phase, armed: bool, pending: bool)

  /** One event; an event that cannot happen changes nothing. */
  function React(w: Shape, e: Event): Shape {
    match e
    case TimerFires => if w.armed then Shape(w.phase, false, w.pending || w.phase == Running) else w
    case CycleEnds => if w.pending then Shape(w.phase, w.armed || w.phase == Running, false) else w
    case StopRequested => Shape(ShuttingDown, false, w.pending)
    case StopReturns => if w.phase == ShuttingDown && !w.pending then w.(phase := Stopped) else w
  }

  function ReactAll(w: Shape, events: seq<Event>): Shape {
    if events == [] then w else React(ReactAll(w, events[..|events| - 1]), events[|events| - 1])
  }

  class Worker {
    var phase: Phase
    var armed: bool
    var pending: bool

    function Now(): Shape reads this { Shape(phase, armed, pending) }

    predicate Stopping() reads this { phase == ShuttingDown || phase == Stopped }

    /** Runs once at startup. */
    constructor ()
      ensures Now() == Shape(Running, false, true)
    {
      phase, armed, pending := Running, false, true;
    }

    method Tick()
      modifies this`pending
      ensures pending == (old(pending) || !Stopping())
    {
      if Stopping() || pending { return; }
      pending := true;
    }

    method Arm()
      modifies this`armed
      ensures armed == (old(armed) || !Stopping())
    {
      if Stopping() { return; }
      armed := true;
    }

    method Handle(e: Event)
      modifies this
      ensures Now() == React(old(Now()), e)
    {
      match e {
        case TimerFires =>
          if armed {
            armed := false;
            Tick();
          }
        case CycleEnds =>
          if pending {
            pending := false;
            Arm();
          }
        case StopRequested =>
          phase, armed := ShuttingDown, false;
        case StopReturns =>
          if phase == ShuttingDown && !pending { phase := Stopped; }
      }
    }
  }

  /** A running worker is always either in a cycle or waiting for its timer, never both and never
      neither, so cycles do not overlap and the schedule is never lost; a stopping one has no
      timer, and a stopped one is idle. */
  predicate Sane(w: Shape) {
    match w.phase
    case Running => w.armed != w.pending
    case ShuttingDown => !w.armed
    case Stopped => !w.armed && !w.pending
  }

  lemma {:induction false} WorkersStaySane(events: seq<Event>)
    ensures Sane(ReactAll(Shape(Running, false, true), events))
  {
    if events != [] { WorkersStaySane(events[..|events| - 1]); }
  }

  /** Once a stop was requested no cycle starts any more. */
  lemma {:induction false} StopIsFinal(w: Shape, events: seq<Event>)
    requires Sane(w) && w.phase != Running
    ensures ReactAll(w, events).phase != Running && Sane(ReactAll(w, events))
    ensures ReactAll(w, events).pending ==> w.pending
  {
    if events != [] { StopIsFinal(w, events[..|events| - 1]); }
  }
}
