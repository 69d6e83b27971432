/** What a scheduled cycle does, turn by turn (apps/worker/src/scheduled-worker.ts), stated on the answers
    of its dependencies alone. */
module CycleOutcome {
  import opened Common
  import opened ScheduledWorker
  import WorkerSchedule

  // ----- One job -----

  /** A failing job is given up when it cannot succeed or this was its third attempt. */
  function AfterFailure(unrecoverable: bool, attempt: int): JobState {
    if !unrecoverable && attempt < 3 then Retry else JobFailed
  }

  /** The closes of a job, one by one: the first by what its handler did, a second one only when the close
      of a processed or timed-out job threw. */
  lemma ClosesOneByOne(t: Turn, job: Job)
    ensures var closes := ClosesOf(t, job);
      && |closes| == (if t.inScope && !t.closes && !t.work.Throws? then 2 else 1)
      && closes[0].returned == t.closes
      && closes[0].state
         == (if !t.inScope then JobFailed
             else match t.work
               case Succeeds => Processed
               case TimesOut => JobIndeterminate
               case Throws(unrecoverable) => AfterFailure(unrecoverable, job.attempt))
      && (|closes| == 2 ==> closes[1] == Close(AfterFailure(false, job.attempt), t.recloses))
  {
  }

  /** The loop goes on after a job whose last close returned, unless that closed a timed-out job at once. */
  predicate GoesOn(t: Turn) {
    if t.closes then !(t.inScope && t.work.TimesOut?)
    else t.inScope && !t.work.Throws? && t.recloses
  }

  /** The last close threw. */
  predicate LastCloseThrows(t: Turn) {
    !t.closes && !(t.inScope && !t.work.Throws? && t.recloses)
  }

  lemma FlowByCloses(t: Turn, job: Job)
    ensures FlowOf(t, job) == Continue <==> GoesOn(t)
    ensures FlowOf(t, job) == Escape <==> LastCloseThrows(t)
  {
  }

  // ----- The loop -----

  /** A turn in time, while not stopping. */
  predicate InTime(t: Turn, run: Run) {
    !t.stopping && t.now < run.deadline
  }

  /** The loop comes to turn `i`: every earlier turn handled a job and went on. */
  ghost predicate Reaches(script: nat -> Turn, run: Run, i: nat) {
    forall j: nat :: j < i ==> InTime(script(j), run) && script(j).claim.Got? && GoesOn(script(j))
  }

  /** The job of turn `i` is handled. */
  ghost predicate Handles(script: nat -> Turn, run: Run, i: nat) {
    Reaches(script, run, i) && InTime(script(i), run) && script(i).claim.Got?
  }

  /** Turn `i` leaves the state of the run unknown: claiming or the last close of its job throws. */
  ghost predicate Escapes(script: nat -> Turn, run: Run, i: nat) {
    && Reaches(script, run, i) && InTime(script(i), run)
    && (script(i).claim.ClaimThrows? || (script(i).claim.Got? && LastCloseThrows(script(i))))
  }

  lemma ReachesNext(script: nat -> Turn, run: Run, i: nat)
    ensures Reaches(script, run, i + 1) <==> Handles(script, run, i) && GoesOn(script(i))
  {
  }

  lemma {:induction false} LoopReaches(script: nat -> Turn, run: Run, n: nat)
    ensures Loop(script, run, n).flow == Continue <==> Reaches(script, run, n)
  {
    if n > 0 {
      LoopReaches(script, run, n - 1);
      ReachesNext(script, run, n - 1);
      if script(n - 1).claim.Got? { FlowByCloses(script(n - 1), script(n - 1).claim.job); }
    }
  }

  /** What turn `i` records of its job. */
  function HandledIn(t: Turn): Handled
    requires t.claim.Got?
  {
    Handled(t.claim.job, t, ClosesOf(t, t.claim.job))
  }

  /** The jobs of a loop are those of its turns, as far as it comes. */
  ghost predicate JobOfTurn(handled: seq<Handled>, script: nat -> Turn, run: Run, n: nat, i: nat) {
    && (i < |handled| <==> i < n && Handles(script, run, i))
    && (i < |handled| ==> handled[i] == HandledIn(script(i)))
  }

  lemma TurnTakesJob(b: Batch, script: nat -> Turn, run: Run, n: nat, i: nat)
    requires |b.handled| == n && Reaches(script, run, n) && JobOfTurn(b.handled, script, run, n, i)
    ensures JobOfTurn(TakeTurn(b, script(n), run).handled, script, run, n + 1, i)
  {
    var t := script(n);
    assert Handles(script, run, n) <==> InTime(t, run) && t.claim.Got?;
    if InTime(t, run) && t.claim.Got? {
      assert TakeTurn(b, t, run).handled == b.handled + [HandledIn(t)];
    } else {
      assert TakeTurn(b, t, run).handled == b.handled;
    }
  }

  /** The loop handles one job a turn, from the first turn to the last that offers one in time. */
  lemma {:induction false} LoopHandles(script: nat -> Turn, run: Run, n: nat, i: nat)
    ensures JobOfTurn(Loop(script, run, n).handled, script, run, n, i)
  {
    if n > 0 {
      LoopHandles(script, run, n - 1, i);
      LoopReaches(script, run, n - 1);
      if Loop(script, run, n - 1).flow == Continue {
        TurnsAreJobs(script, run, n - 1);
        TurnTakesJob(Loop(script, run, n - 1), script, run, n - 1, i);
      } else {
        assert !Handles(script, run, n - 1);
      }
    }
  }

  ghost predicate EscapesBefore(script: nat -> Turn, run: Run, n: nat) {
    exists i: nat :: i < n && Escapes(script, run, i)
  }

  ghost predicate TimesOutBefore(script: nat -> Turn, run: Run, n: nat) {
    exists i: nat :: i < n && Handles(script, run, i) && script(i).inScope && script(i).work.TimesOut?
  }

  lemma EscapesNext(script: nat -> Turn, run: Run, n: nat)
    ensures EscapesBefore(script, run, n + 1) <==> EscapesBefore(script, run, n) || Escapes(script, run, n)
    ensures TimesOutBefore(script, run, n + 1)
      <==> TimesOutBefore(script, run, n) || (Handles(script, run, n) && script(n).inScope && script(n).work.TimesOut?)
  {
  }

  lemma {:induction false} LoopEnds(script: nat -> Turn, run: Run, n: nat)
    ensures Loop(script, run, n).flow == Escape <==> EscapesBefore(script, run, n)
    ensures Loop(script, run, n).status
      == if TimesOutBefore(script, run, n) then Indeterminate else Completed
  {
    if n > 0 {
      LoopEnds(script, run, n - 1);
      LoopReaches(script, run, n - 1);
      EscapesNext(script, run, n - 1);
      if script(n - 1).claim.Got? { FlowByCloses(script(n - 1), script(n - 1).claim.job); }
    }
  }

  // ----- The cycle -----

  /** The first five minutes of an hour on the Phoenix clock, from 06:00 to 01:59. */
  predicate AdmittedAt(now: int) {
    now % 3_600_000 < 300_000 && !(2 <= (now / 3_600_000 - 7) % 24 <= 5)
  }

  lemma WindowIsAdmitted(deps: Deps)
    ensures InWindow(deps) <==> !deps.stopping && AdmittedAt(deps.now)
  {
    var n, ms := deps.now / WorkerSchedule.HOUR_MS, deps.now % WorkerSchedule.HOUR_MS;
    assert deps.now == n * WorkerSchedule.HOUR_MS + ms;
    WorkerSchedule.AdmittedInFirstMinutes(n, ms, 1);
    assert forall x: int :: x % 1 == 0;
  }

  /** The run is claimed. */
  predicate Claims(deps: Deps) {
    !deps.stopping && AdmittedAt(deps.now) && deps.claimRun.GotRun?
  }

  /** Jobs are asked for: the run does not go to the metered queue, and its preparation succeeded. */
  predicate AsksForJobs(deps: Deps) {
    Claims(deps) && !deps.claimRun.run.metered && !deps.prepareThrows
  }

  /** How many turns a run has: its own limit, at most sixty. */
  function Turns(run: Run): nat {
    if run.maxJobs < 0 then 0 else if run.maxJobs < 60 then run.maxJobs else 60
  }

  /** A claimed run is certain to be complete: its metered work returned; or its preparation did, no turn
      escaped and no handled job timed out. */
  ghost predicate Certain(deps: Deps)
    requires Claims(deps)
  {
    var run := deps.claimRun.run;
    if run.metered then !deps.meteredThrows
    else
      && !deps.prepareThrows && !EscapesBefore(deps.script, run, Turns(run))
      && !TimesOutBefore(deps.script, run, Turns(run))
  }

  /** Result and closes of a cycle, each exactly when it occurs. */
  lemma CycleExactly(deps: Deps)
    ensures var c, open := CycleOf(deps), !deps.stopping && AdmittedAt(deps.now);
      && (c.result == OutsideWindow <==> !open)
      && (c.result == NotAdmitted <==> open && deps.claimRun.NoRun?)
      && (c.result == Rejected <==>
            open && (deps.claimRun.RunClaimThrows? || (deps.claimRun.GotRun? && deps.finishRunThrows)))
      && c.runCloses
         == (if !Claims(deps) then [] else [if Certain(deps) then Completed else Indeterminate])
      && (Claims(deps) && !deps.finishRunThrows ==> c.result == Ended(c.runCloses[0]))
  {
    WindowIsAdmitted(deps);
    if Claims(deps) { LoopEnds(deps.script, deps.claimRun.run, Turns(deps.claimRun.run)); }
  }

  /** The jobs of a cycle: turn by turn, those that the loop comes to and that are offered in time. */
  lemma CycleHandles(deps: Deps, i: nat)
    ensures var handled := CycleOf(deps).handled;
      && (i < |handled| <==>
            AsksForJobs(deps) && i < Turns(deps.claimRun.run) && Handles(deps.script, deps.claimRun.run, i))
      && (i < |handled| ==> handled[i] == HandledIn(deps.script(i)))
  {
    WindowIsAdmitted(deps);
    if AsksForJobs(deps) { LoopHandles(deps.script, deps.claimRun.run, Turns(deps.claimRun.run), i); }
  }

  // ----- The timer loop -----

  /** A waiting worker starts a cycle when its timer fires and waits again when the cycle ends; a stop
      clears the timer, lets a cycle end, and is final. */
  lemma {:induction false} TimerAndStop(w: Shape)
    requires Sane(w)
    ensures w.phase == Running ==>
      React(w, if w.armed then TimerFires else CycleEnds) == Shape(Running, !w.armed, !w.pending)
    ensures React(w, StopRequested) == Shape(ShuttingDown, false, w.pending)
    ensures ReactAll(w, [StopRequested] + [CycleEnds] + [StopReturns]) == Shape(Stopped, false, false)
  {
    assert ([StopRequested] + [CycleEnds] + [StopReturns])[..2] == [StopRequested] + [CycleEnds];
    assert ([StopRequested] + [CycleEnds])[..1] == [StopRequested] && [StopRequested][..0] == [];
    assert ReactAll(w, [StopRequested]) == React(w, StopRequested);
    assert ReactAll(w, [StopRequested] + [CycleEnds]) == React(React(w, StopRequested), CycleEnds);
  }
}
