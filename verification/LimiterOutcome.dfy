/** Which calls of a limiter are granted and which requests send a mail (packages/shared/src/rate-limit.ts,
    packages/auth/src/verification-resend.ts), stated on the calls and requests alone. */
module LimiterOutcome {
  import opened Common
  import opened SlidingWindow

  // ----- Granted calls -----

  /** The granted ones among the first `n` calls for a key that were made after a time. */
  ghost function GrantedTo(calls: seq<Call>, answers: seq<Verdict>, n: nat, time: int, key: Key): set<nat>
    requires n <= |calls| == |answers|
  {
    set j: nat | j < n && answers[j] == Granted && calls[j].now > time && calls[j].key == key
  }

  /** The keys that the granted ones are for. */
  ghost function KeysGranted(calls: seq<Call>, answers: seq<Verdict>, n: nat, time: int): set<Key>
    requires n <= |calls| == |answers|
  {
    set j: nat | j < n && answers[j] == Granted && calls[j].now > time :: calls[j].key
  }

  lemma GrantedNext(calls: seq<Call>, answers: seq<Verdict>, n: nat, time: int, key: Key)
    requires n < |calls| == |answers|
    ensures var granted := answers[n] == Granted && calls[n].now > time;
      && GrantedTo(calls, answers, n + 1, time, key)
         == GrantedTo(calls, answers, n, time, key) + (if granted && calls[n].key == key then {n} else {})
      && KeysGranted(calls, answers, n + 1, time)
         == KeysGranted(calls, answers, n, time) + (if granted then {calls[n].key} else {})
  {
  }

  lemma LiveAppend(history: seq<Grant>, g: Grant, time: int)
    ensures LiveKeys(history + [g], time) == LiveKeys(history, time) + if g.at > time then {g.key} else {}
  {
    assert forall x :: x in history + [g] <==> x in history || x == g;
  }

  /** A history is that of the first `n` calls: as many stamps of the key, and the same live keys. */
  ghost predicate Holds(history: seq<Grant>, calls: seq<Call>, answers: seq<Verdict>, n: nat, time: int, key: Key)
    requires n <= |calls| == |answers|
  {
    && |Stamps(history, key, time)| == |GrantedTo(calls, answers, n, time, key)|
    && LiveKeys(history, time) == KeysGranted(calls, answers, n, time)
  }

  lemma HoldsNext(history: seq<Grant>, calls: seq<Call>, answers: seq<Verdict>, n: nat, time: int, key: Key)
    requires n < |calls| == |answers| && Holds(history, calls, answers, n, time, key)
    ensures Holds(
      if answers[n] == Granted then history + [Grant(calls[n].key, calls[n].now)] else history,
      calls, answers, n + 1, time, key)
  {
    var c := calls[n];
    GrantedNext(calls, answers, n, time, key);
    if answers[n] == Granted {
      StampsAppend(history, Grant(c.key, c.now), key, time);
      LiveAppend(history, Grant(c.key, c.now), time);
    }
  }

  /** The answer to the i-th of some calls. */
  function Answer(calls: seq<Call>, i: nat, windowMs: int, maxBuckets: int): Verdict
    requires i < |calls|
  {
    VerdictOf(Run(calls[..i], windowMs, maxBuckets), calls[i], windowMs, maxBuckets)
  }

  /** The answers to all of them. */
  function Answers(calls: seq<Call>, windowMs: int, maxBuckets: int): (answers: seq<Verdict>)
    ensures |answers| == |calls|
  {
    seq(|calls|, i requires 0 <= i < |calls| => Answer(calls, i, windowMs, maxBuckets))
  }

  lemma StepRecords(l: Limiter, c: Call, windowMs: int, maxBuckets: int)
    ensures Step(l, c, windowMs, maxBuckets).history
      == if VerdictOf(l, c, windowMs, maxBuckets) == Granted then l.history + [Grant(c.key, c.now)] else l.history
  {
  }

  lemma {:induction false} RunRecords(calls: seq<Call>, i: nat, windowMs: int, maxBuckets: int)
    requires i < |calls|
    ensures var was := Run(calls[..i], windowMs, maxBuckets).history;
      Run(calls[..i + 1], windowMs, maxBuckets).history
      == if Answer(calls, i, windowMs, maxBuckets) == Granted then was + [Grant(calls[i].key, calls[i].now)] else was
  {
    assert calls[..i + 1][..i] == calls[..i];
    StepRecords(Run(calls[..i], windowMs, maxBuckets), calls[i], windowMs, maxBuckets);
  }

  /** The grants of the granted ones among the first `n` calls, in order. */
  function Grants(calls: seq<Call>, answers: seq<Verdict>, n: nat): seq<Grant>
    requires n <= |calls| == |answers|
  {
    if n == 0 then []
    else if answers[n - 1] == Granted then
      Grants(calls, answers, n - 1) + [Grant(calls[n - 1].key, calls[n - 1].now)]
    else Grants(calls, answers, n - 1)
  }

  /** They are what the limiter remembers. */
  lemma {:induction false} HistoryIsGrants(
      calls: seq<Call>, answers: seq<Verdict>, n: nat, windowMs: int, maxBuckets: int)
    requires answers == Answers(calls, windowMs, maxBuckets) && n <= |calls|
    ensures Run(calls[..n], windowMs, maxBuckets).history == Grants(calls, answers, n)
  {
    if n > 0 {
      HistoryIsGrants(calls, answers, n - 1, windowMs, maxBuckets);
      RunRecords(calls, n - 1, windowMs, maxBuckets);
      assert answers[n - 1] == Answer(calls, n - 1, windowMs, maxBuckets);
    }
  }

  lemma {:induction false} GrantsHold(calls: seq<Call>, answers: seq<Verdict>, n: nat, time: int, key: Key)
    requires n <= |calls| == |answers|
    ensures Holds(Grants(calls, answers, n), calls, answers, n, time, key)
  {
    if n > 0 {
      GrantsHold(calls, answers, n - 1, time, key);
      HoldsNext(Grants(calls, answers, n - 1), calls, answers, n - 1, time, key);
    }
  }

  /** The verdict by the granted calls of a call's last window: exhausted when none of them is for its key
      and they are for as many keys as there are buckets, limited when as many as it asks for are for its
      key, and granted otherwise. */
  ghost function VerdictByGrants(
      calls: seq<Call>, answers: seq<Verdict>, i: nat, windowMs: int, maxBuckets: int): Verdict
    requires i < |calls| == |answers|
  {
    var c := calls[i];
    var live := KeysGranted(calls, answers, i, c.now - windowMs);
    var own := GrantedTo(calls, answers, i, c.now - windowMs, c.key);
    if own == {} && |live| >= maxBuckets then Exhausted
    else if |own| >= c.maxAttempts then Limited
    else Granted
  }

  lemma {:induction false} FullByGrants(calls: seq<Call>, answers: seq<Verdict>, i: nat, windowMs: int, maxBuckets: int)
    requires i < |calls| == |answers|
    ensures VerdictByGrants(calls, answers, i, windowMs, maxBuckets)
      == FullVerdict(
           Grants(calls, answers, i), calls[i].key, calls[i].maxAttempts, maxBuckets, calls[i].now - windowMs)
  {
    var history, time := Grants(calls, answers, i), calls[i].now - windowMs;
    GrantsHold(calls, answers, i, time, calls[i].key);
    LiveMeansStamps(history, calls[i].key, time);
  }

  lemma {:induction false} AnswerIsFull(calls: seq<Call>, i: nat, windowMs: int, maxBuckets: int, history: seq<Grant>)
    requires ClockForward(calls) && i < |calls| && history == Run(calls[..i], windowMs, maxBuckets).history
    ensures Answer(calls, i, windowMs, maxBuckets)
      == FullVerdict(history, calls[i].key, calls[i].maxAttempts, maxBuckets, calls[i].now - windowMs)
  {
    RunsRefineFullHistory(calls[..i], calls[i], windowMs, maxBuckets);
  }

  lemma {:induction false} AnswersAreFull(
      calls: seq<Call>, answers: seq<Verdict>, i: nat, windowMs: int, maxBuckets: int)
    requires ClockForward(calls) && i < |calls| && answers == Answers(calls, windowMs, maxBuckets)
    ensures answers[i]
      == FullVerdict(
           Grants(calls, answers, i), calls[i].key, calls[i].maxAttempts, maxBuckets, calls[i].now - windowMs)
  {
    HistoryIsGrants(calls, answers, i, windowMs, maxBuckets);
    AnswerIsFull(calls, i, windowMs, maxBuckets, Grants(calls, answers, i));
    assert answers[i] == Answer(calls, i, windowMs, maxBuckets);
  }

  /** With a clock that never steps back, every call is answered by the granted calls of its last window. */
  lemma AnswersByGrants(calls: seq<Call>, i: nat, windowMs: int, maxBuckets: int)
    requires ClockForward(calls) && i < |calls|
    ensures var answers := Answers(calls, windowMs, maxBuckets);
      answers[i] == VerdictByGrants(calls, answers, i, windowMs, maxBuckets)
  {
    var answers := Answers(calls, windowMs, maxBuckets);
    AnswersAreFull(calls, answers, i, windowMs, maxBuckets);
    FullByGrants(calls, answers, i, windowMs, maxBuckets);
  }
}
