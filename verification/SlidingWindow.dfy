/** The sliding-window limiters (packages/shared/src/rate-limit.ts and the limiter of
    packages/auth/src/verification-resend.ts): pruned buckets of timestamps, proved against
    the full history of grants. */
module SlidingWindow {
  import opened Common

  datatype Key = Key(raw: string)

  datatype Grant = Grant(key: Key, at: int)

  /** `Exhausted`: no bucket is free for a new key. One limiter answers no, the other throws. */
  datatype Verdict = Granted | Limited | Exhausted

  type Buckets = map<Key, seq<int>>

  function Kept(stamps: seq<int>, cutoff: int): seq<int> {
    if stamps == [] then []
    else Kept(stamps[..|stamps| - 1], cutoff) + if stamps[|stamps| - 1] > cutoff then [stamps[|stamps| - 1]] else []
  }

  function Prune(b: Buckets, cutoff: int): Buckets {
    map k | k in b && Kept(b[k], cutoff) != [] :: Kept(b[k], cutoff)
  }

  function StampsIn(b: Buckets, key: Key): seq<int> {
    if key in b then b[key] else []
  }

  /** The decision on pruned buckets. */
  function Decide(pruned: Buckets, key: Key, maxAttempts: int, maxBuckets: int): Verdict {
    if |pruned| >= maxBuckets && key !in pruned then Exhausted
    else if |StampsIn(pruned, key)| >= maxAttempts then Limited
    else Granted
  }

  /** The buckets after the decision. */
  function Admit(pruned: Buckets, key: Key, maxAttempts: int, maxBuckets: int, now: int): Buckets {
    if Decide(pruned, key, maxAttempts, maxBuckets) == Granted then
      pruned[key := StampsIn(pruned, key) + [now]]
    else
      pruned
  }

  // ----- The full history -----

  /** The grant times of a key after a cutoff. */
  function Stamps(history: seq<Grant>, key: Key, cutoff: int): seq<int> {
    if history == [] then []
    else
      var g := history[|history| - 1];
      Stamps(history[..|history| - 1], key, cutoff) + if g.key == key && g.at > cutoff then [g.at] else []
  }

  /** The highest cutoff applied so far. */
  function Raise(floor: Option<int>, cutoff: int): Option<int> {
    if floor.None? || floor.value < cutoff then Some(cutoff) else floor
  }

  predicate Reaches(cutoff: int, floor: Option<int>) {
    floor.None? || floor.value <= cutoff
  }

  ghost predicate Agrees(b: Buckets, history: seq<Grant>, k: Key, cutoff: int) {
    Kept(StampsIn(b, k), cutoff) == Stamps(history, k, cutoff)
  }

  /** Past every cutoff not below the floor the buckets hold exactly the history. */
  ghost predicate Refines(b: Buckets, history: seq<Grant>, floor: Option<int>) {
    forall k, c :: Reaches(c, floor) ==> Agrees(b, history, k, c)
  }

  /** No bucket is empty, and there are at most `maxBuckets` of them. */
  ghost predicate Tidy(b: Buckets, maxBuckets: int) {
    |b| <= Max(maxBuckets, 0) && forall k :: k in b ==> b[k] != []
  }

  /** The keys with a grant past a cutoff. */
  ghost function LiveKeys(history: seq<Grant>, cutoff: int): set<Key> {
    set g | g in history && g.at > cutoff :: g.key
  }

  // ----- The limiter -----

  datatype Call = Call(key: Key, maxAttempts: int, now: int)

  /** A limiter over a run: its buckets and everything it granted. */
  datatype Limiter = Limiter(buckets: Buckets, history: seq<Grant>)

  function AdmitCall(pruned: Buckets, history: seq<Grant>, c: Call, maxBuckets: int): Limiter {
    var granted := Decide(pruned, c.key, c.maxAttempts, maxBuckets) == Granted;
    Limiter(
      Admit(pruned, c.key, c.maxAttempts, maxBuckets, c.now),
      if granted then history + [Grant(c.key, c.now)] else history)
  }

  function Step(l: Limiter, c: Call, windowMs: int, maxBuckets: int): Limiter {
    AdmitCall(Prune(l.buckets, c.now - windowMs), l.history, c, maxBuckets)
  }

  function VerdictOf(l: Limiter, c: Call, windowMs: int, maxBuckets: int): Verdict {
    Decide(Prune(l.buckets, c.now - windowMs), c.key, c.maxAttempts, maxBuckets)
  }

  class MemoryWindowLimiter {
    var buckets: Buckets
    const windowMs: int
    const maxBuckets: int
    ghost var history: seq<Grant>
    ghost var floor: Option<int>

    ghost function State(): Limiter
      reads this
    {
      Limiter(buckets, history)
    }

    ghost predicate Valid()
      reads this
    {
      Tidy(buckets, maxBuckets) && Refines(buckets, history, floor)
    }

    constructor (windowMs: int, maxBuckets: int)
      ensures this.windowMs == windowMs && this.maxBuckets == maxBuckets
      ensures Valid() && history == [] && floor == None
    {
      this.windowMs, this.maxBuckets := windowMs, maxBuckets;
      buckets, history, floor := map[], [], None;
      new;
      NothingYet();
    }

    method PruneBuckets(cutoff: int)
      modifies this`buckets
      ensures buckets == Prune(old(buckets), cutoff)
    {
      var rest := buckets.Keys;
      while rest != {}
        invariant rest <= old(buckets).Keys
        invariant buckets.Keys <= old(buckets).Keys
        invariant forall k :: k in rest ==> k in buckets && buckets[k] == old(buckets)[k]
        invariant forall k :: k in old(buckets) && k !in rest ==>
          && (k in buckets <==> Kept(old(buckets)[k], cutoff) != [])
          && (k in buckets ==> buckets[k] == Kept(old(buckets)[k], cutoff))
        decreases |rest|
      {
        var k :| k in rest;
        var kept := Kept(buckets[k], cutoff);
        KeptAll(buckets[k], cutoff);
        if |kept| == 0 {
          buckets := buckets - {k};
        } else if |kept| != |buckets[k]| {
          buckets := buckets[k := kept];
        }
        rest := rest - {k};
      }
    }

    method AdmitPruned(key: Key, maxAttempts: int, now: int) returns (verdict: Verdict)
      requires Valid()
      modifies this`buckets, this`history
      ensures Valid()
      ensures verdict == Decide(old(buckets), key, maxAttempts, maxBuckets)
      ensures State() == AdmitCall(old(buckets), old(history), Call(key, maxAttempts, now), maxBuckets)
    {
      if |buckets| >= maxBuckets && key !in buckets { return Exhausted; }
      var existing := StampsIn(buckets, key);
      if |existing| >= maxAttempts { return Limited; }
      GrantKeepsValid(buckets, history, floor, key, now, maxBuckets);
      buckets := buckets[key := existing + [now]];
      history := history + [Grant(key, now)];
      return Granted;
    }

    /** One call. Whenever its cutoff is not below an earlier one, its verdict is that of the
        limiter that remembers every grant: see `VerdictIsFull`. */
    method Consume(key: Key, maxAttempts: int, now: int) returns (verdict: Verdict)
      requires Valid()
      modifies this
      ensures Valid() && floor == Raise(old(floor), now - windowMs)
      ensures verdict == VerdictOf(old(State()), Call(key, maxAttempts, now), windowMs, maxBuckets)
      ensures State() == Step(old(State()), Call(key, maxAttempts, now), windowMs, maxBuckets)
    {
      var cutoff := now - windowMs;
      PruneBuckets(cutoff);
      PruningKeepsValid(old(buckets), history, old(floor), cutoff, maxBuckets);
      StepDecomposes(old(State()), Call(key, maxAttempts, now), windowMs, maxBuckets, buckets);
      floor := Raise(floor, cutoff);
      verdict := AdmitPruned(key, maxAttempts, now);
    }
  }

  lemma StepDecomposes(l: Limiter, c: Call, windowMs: int, maxBuckets: int, pruned: Buckets)
    requires pruned == Prune(l.buckets, c.now - windowMs)
    ensures Step(l, c, windowMs, maxBuckets) == AdmitCall(pruned, l.history, c, maxBuckets)
    ensures VerdictOf(l, c, windowMs, maxBuckets) == Decide(pruned, c.key, c.maxAttempts, maxBuckets)
  {
  }

  /** The reference: decide by counting the grants past the cutoff in the whole history. */
  ghost function FullVerdict(history: seq<Grant>, key: Key, maxAttempts: int, maxBuckets: int, cutoff: int): Verdict {
    if |LiveKeys(history, cutoff)| >= maxBuckets && key !in LiveKeys(history, cutoff) then Exhausted
    else if |Stamps(history, key, cutoff)| >= maxAttempts then Limited
    else Granted
  }

  // ----- Refinement -----

  lemma NothingYet()
    ensures Refines(map[], [], None)
  {
    forall k, c ensures Agrees(map[], [], k, c) { }
  }

  lemma {:induction false} KeptAll(stamps: seq<int>, cutoff: int)
    ensures |Kept(stamps, cutoff)| <= |stamps|
    ensures |Kept(stamps, cutoff)| == |stamps| ==> Kept(stamps, cutoff) == stamps
  {
    if stamps != [] { KeptAll(stamps[..|stamps| - 1], cutoff); }
  }

  lemma {:induction false} KeptAppend(stamps: seq<int>, t: int, cutoff: int)
    ensures Kept(stamps + [t], cutoff) == Kept(stamps, cutoff) + if t > cutoff then [t] else []
  {
    assert (stamps + [t])[..|stamps|] == stamps;
  }

  lemma {:induction false} KeptTwice(stamps: seq<int>, low: int, high: int)
    requires low <= high
    ensures Kept(Kept(stamps, low), high) == Kept(stamps, high)
  {
    if stamps != [] {
      var front := Kept(stamps[..|stamps| - 1], low);
      KeptTwice(stamps[..|stamps| - 1], low, high);
      KeptAppend(front, stamps[|stamps| - 1], high);
      assert front + [] == front;
    }
  }

  lemma {:induction false} StampsAppend(history: seq<Grant>, g: Grant, key: Key, cutoff: int)
    ensures Stamps(history + [g], key, cutoff)
      == Stamps(history, key, cutoff) + if g.key == key && g.at > cutoff then [g.at] else []
  {
    assert (history + [g])[..|history|] == history;
  }

  lemma {:induction false} PrunedStamps(b: Buckets, k: Key, cutoff: int)
    ensures StampsIn(Prune(b, cutoff), k) == Kept(StampsIn(b, k), cutoff)
  {
  }

  lemma PruningKeepsValid(b: Buckets, history: seq<Grant>, floor: Option<int>, cutoff: int, maxBuckets: int)
    requires Tidy(b, maxBuckets) && Refines(b, history, floor)
    ensures Tidy(Prune(b, cutoff), maxBuckets) && Refines(Prune(b, cutoff), history, Raise(floor, cutoff))
  {
    var pruned := Prune(b, cutoff);
    FewerKeys(pruned.Keys, b.Keys);
    forall k, c | Reaches(c, Raise(floor, cutoff)) ensures Agrees(pruned, history, k, c) {
      assert Agrees(b, history, k, c);
      PrunedStamps(b, k, cutoff);
      KeptTwice(StampsIn(b, k), cutoff, c);
    }
  }

  lemma FewerKeys(a: set<Key>, b: set<Key>)
    requires a <= b
    ensures |a| <= |b|
  {
    assert b == a + (b - a);
  }

  lemma GrantKeepsValid(b: Buckets, history: seq<Grant>, floor: Option<int>, key: Key, now: int, maxBuckets: int)
    requires Tidy(b, maxBuckets) && Refines(b, history, floor) && (|b| < maxBuckets || key in b)
    ensures Tidy(b[key := StampsIn(b, key) + [now]], maxBuckets)
    ensures Refines(b[key := StampsIn(b, key) + [now]], history + [Grant(key, now)], floor)
  {
    var b' := b[key := StampsIn(b, key) + [now]];
    assert b'.Keys == b.Keys + {key};
    forall k, c | Reaches(c, floor) ensures Agrees(b', history + [Grant(key, now)], k, c) {
      assert Agrees(b, history, k, c);
      StampsAppend(history, Grant(key, now), k, c);
      if k == key { KeptAppend(StampsIn(b, key), now, c); }
    }
  }

  lemma {:induction false} LiveMeansStamps(history: seq<Grant>, key: Key, cutoff: int)
    ensures key in LiveKeys(history, cutoff) <==> Stamps(history, key, cutoff) != []
  {
    if history != [] {
      var front, g := history[..|history| - 1], history[|history| - 1];
      LiveMeansStamps(front, key, cutoff);
      assert history == front + [g];
      assert key in LiveKeys(history, cutoff) <==> key in LiveKeys(front, cutoff) || (g.key == key && g.at > cutoff);
    }
  }

  lemma PrunedDecidesFully(
      b: Buckets, history: seq<Grant>, floor: Option<int>, cutoff: int, key: Key, maxAttempts: int, maxBuckets: int)
    requires Refines(b, history, floor) && Reaches(cutoff, floor)
    ensures Decide(Prune(b, cutoff), key, maxAttempts, maxBuckets)
      == FullVerdict(history, key, maxAttempts, maxBuckets, cutoff)
  {
    var pruned := Prune(b, cutoff);
    forall k ensures k in pruned <==> k in LiveKeys(history, cutoff) {
      assert Agrees(b, history, k, cutoff);
      LiveMeansStamps(history, k, cutoff);
    }
    assert pruned.Keys == LiveKeys(history, cutoff);
    assert Agrees(b, history, key, cutoff);
    PrunedStamps(b, key, cutoff);
  }

  // ----- Runs -----

  function Run(calls: seq<Call>, windowMs: int, maxBuckets: int): Limiter {
    if calls == [] then Limiter(map[], [])
    else Step(Run(calls[..|calls| - 1], windowMs, maxBuckets), calls[|calls| - 1], windowMs, maxBuckets)
  }

  function Floor(calls: seq<Call>, windowMs: int): Option<int> {
    if calls == [] then None
    else Raise(Floor(calls[..|calls| - 1], windowMs), calls[|calls| - 1].now - windowMs)
  }

  ghost predicate ClockForward(calls: seq<Call>) {
    forall i, j :: 0 <= i <= j < |calls| ==> calls[i].now <= calls[j].now
  }

  lemma AdmitKeepsValid(pruned: Buckets, history: seq<Grant>, floor: Option<int>, c: Call, maxBuckets: int)
    requires Tidy(pruned, maxBuckets) && Refines(pruned, history, floor)
    ensures var l := AdmitCall(pruned, history, c, maxBuckets);
      Tidy(l.buckets, maxBuckets) && Refines(l.buckets, l.history, floor)
  {
    if Decide(pruned, c.key, c.maxAttempts, maxBuckets) == Granted {
      GrantKeepsValid(pruned, history, floor, c.key, c.now, maxBuckets);
    }
  }

  lemma StepKeepsValid(l: Limiter, floor: Option<int>, c: Call, windowMs: int, maxBuckets: int)
    requires Tidy(l.buckets, maxBuckets) && Refines(l.buckets, l.history, floor)
    ensures var l' := Step(l, c, windowMs, maxBuckets);
      Tidy(l'.buckets, maxBuckets) && Refines(l'.buckets, l'.history, Raise(floor, c.now - windowMs))
  {
    PruningKeepsValid(l.buckets, l.history, floor, c.now - windowMs, maxBuckets);
    AdmitKeepsValid(Prune(l.buckets, c.now - windowMs), l.history, Raise(floor, c.now - windowMs), c, maxBuckets);
  }

  /** Over any run, under any clock: no bucket is empty, their number never exceeds the maximum,
      and past the highest cutoff they hold exactly the history. */
  lemma {:induction false} RunsStayValid(calls: seq<Call>, windowMs: int, maxBuckets: int)
    ensures var l := Run(calls, windowMs, maxBuckets);
      Tidy(l.buckets, maxBuckets) && Refines(l.buckets, l.history, Floor(calls, windowMs))
  {
    if calls == [] {
      NothingYet();
    } else {
      RunsStayValid(calls[..|calls| - 1], windowMs, maxBuckets);
      var front, last := calls[..|calls| - 1], calls[|calls| - 1];
      StepKeepsValid(Run(front, windowMs, maxBuckets), Floor(front, windowMs), last, windowMs, maxBuckets);
    }
  }

  lemma {:induction false} FloorIsReached(calls: seq<Call>, windowMs: int, now: int)
    requires forall i :: 0 <= i < |calls| ==> calls[i].now <= now
    ensures Reaches(now - windowMs, Floor(calls, windowMs))
  {
    if calls != [] { FloorIsReached(calls[..|calls| - 1], windowMs, now); }
  }

  /** With a clock that never steps back, every call is decided as if the whole history of
      grants were counted over the last window. */
  lemma {:induction false} RunsRefineFullHistory(calls: seq<Call>, next: Call, windowMs: int, maxBuckets: int)
    requires forall i :: 0 <= i < |calls| ==> calls[i].now <= next.now
    ensures VerdictOf(Run(calls, windowMs, maxBuckets), next, windowMs, maxBuckets)
      == FullVerdict(
           Run(calls, windowMs, maxBuckets).history, next.key, next.maxAttempts, maxBuckets, next.now - windowMs)
  {
    RunsStayValid(calls, windowMs, maxBuckets);
    FloorIsReached(calls, windowMs, next.now);
    VerdictIsFull(Run(calls, windowMs, maxBuckets), Floor(calls, windowMs), next, windowMs, maxBuckets);
  }

  lemma VerdictIsFull(l: Limiter, floor: Option<int>, c: Call, windowMs: int, maxBuckets: int)
    requires Refines(l.buckets, l.history, floor) && Reaches(c.now - windowMs, floor)
    ensures VerdictOf(l, c, windowMs, maxBuckets)
      == FullVerdict(l.history, c.key, c.maxAttempts, maxBuckets, c.now - windowMs)
  {
    PrunedDecidesFully(l.buckets, l.history, floor, c.now - windowMs, c.key, c.maxAttempts, maxBuckets);
  }

  // ----- No window holds too many -----

  /** Grants of a key in the window (x - w, x]. */
  function InWindow(history: seq<Grant>, key: Key, windowMs: int, x: int): nat {
    if history == [] then 0
    else
      var g := history[|history| - 1];
      InWindow(history[..|history| - 1], key, windowMs, x) + if g.key == key && x - windowMs < g.at <= x then 1 else 0
  }

  lemma {:induction false} WindowWithinStamps(history: seq<Grant>, key: Key, windowMs: int, x: int, now: int)
    requires now <= x
    ensures InWindow(history, key, windowMs, x) <= |Stamps(history, key, now - windowMs)|
  {
    if history != [] { WindowWithinStamps(history[..|history| - 1], key, windowMs, x, now); }
  }

  lemma {:induction false} WindowAppend(history: seq<Grant>, g: Grant, key: Key, windowMs: int, x: int)
    ensures InWindow(history + [g], key, windowMs, x)
      == InWindow(history, key, windowMs, x) + if g.key == key && x - windowMs < g.at <= x then 1 else 0
  {
    assert (history + [g])[..|history|] == history;
  }

  ghost predicate Limits(calls: seq<Call>, key: Key, max: nat) {
    forall i :: 0 <= i < |calls| && calls[i].key == key ==> calls[i].maxAttempts <= max
  }

  lemma {:induction false} StepKeepsWindow(
      l: Limiter, c: Call, windowMs: int, maxBuckets: int, key: Key, max: nat, x: int)
    requires InWindow(l.history, key, windowMs, x) <= max && (c.key == key ==> c.maxAttempts <= max)
    requires VerdictOf(l, c, windowMs, maxBuckets) == Granted ==>
      |Stamps(l.history, c.key, c.now - windowMs)| < c.maxAttempts
    ensures InWindow(Step(l, c, windowMs, maxBuckets).history, key, windowMs, x) <= max
  {
    WindowAppend(l.history, Grant(c.key, c.now), key, windowMs, x);
    if c.key == key && c.now <= x {
      WindowWithinStamps(l.history, key, windowMs, x, c.now);
    }
  }

  /** With a clock that never steps back no window of any position holds more grants of a key
      than the largest limit its calls asked for. */
  lemma {:induction false} NoWindowOverflows(
      calls: seq<Call>, windowMs: int, maxBuckets: int, key: Key, max: nat, x: int)
    requires ClockForward(calls) && Limits(calls, key, max)
    ensures InWindow(Run(calls, windowMs, maxBuckets).history, key, windowMs, x) <= max
  {
    if calls != [] {
      var front, c := calls[..|calls| - 1], calls[|calls| - 1];
      NoWindowOverflows(front, windowMs, maxBuckets, key, max, x);
      RunsRefineFullHistory(front, c, windowMs, maxBuckets);
      StepKeepsWindow(Run(front, windowMs, maxBuckets), c, windowMs, maxBuckets, key, max, x);
    }
  }

  /** A clock that steps back can overfill a window: a call for another key has meanwhile
      dropped the stamp that would have counted. */
  lemma {:induction false} SteppingBackOverfills(a: Key, b: Key)
    requires a != b
    ensures InWindow(Run([Call(a, 1, 100), Call(b, 1, 200), Call(a, 1, 105)], 10, 2).history, a, 10, 105) == 2
  {
    var l1 := Limiter(map[a := [100]], [Grant(a, 100)]);
    var l2 := Limiter(map[b := [200]], [Grant(a, 100)] + [Grant(b, 200)]);
    FirstCall(a);
    SecondCall(a, b);
    ThirdCall(a, b, l2);
    RunThree(Call(a, 1, 100), Call(b, 1, 200), Call(a, 1, 105), l1, l2, 10, 2);
    CountThree(a, b);
  }

  lemma FirstCall(a: Key)
    ensures Step(Limiter(map[], []), Call(a, 1, 100), 10, 2) == Limiter(map[a := [100]], [Grant(a, 100)])
  {
    PruneNone(90);
    FirstOfKey(map[], [], Call(a, 1, 100));
  }

  lemma SecondCall(a: Key, b: Key)
    requires a != b
    ensures Step(Limiter(map[a := [100]], [Grant(a, 100)]), Call(b, 1, 200), 10, 2)
      == Limiter(map[b := [200]], [Grant(a, 100)] + [Grant(b, 200)])
  {
    PruneOne(a, 100, 190);
    FirstOfKey(map[], [Grant(a, 100)], Call(b, 1, 200));
  }

  lemma ThirdCall(a: Key, b: Key, l: Limiter)
    requires a != b && l.buckets == map[b := [200]]
    ensures Step(l, Call(a, 1, 105), 10, 2).history == l.history + [Grant(a, 105)]
  {
    PruneOne(b, 200, 95);
    FirstOfKey(map[b := [200]], l.history, Call(a, 1, 105));
  }

  lemma {:induction false} CountThree(a: Key, b: Key)
    requires a != b
    ensures InWindow([Grant(a, 100)] + [Grant(b, 200)] + [Grant(a, 105)], a, 10, 105) == 2
  {
    assert [] + [Grant(a, 100)] == [Grant(a, 100)];
    WindowAppend([], Grant(a, 100), a, 10, 105);
    WindowAppend([Grant(a, 100)], Grant(b, 200), a, 10, 105);
    WindowAppend([Grant(a, 100)] + [Grant(b, 200)], Grant(a, 105), a, 10, 105);
  }

  lemma PruneNone(cutoff: int)
    ensures Prune(map[], cutoff) == map[]
  {
  }

  lemma PruneOne(k: Key, t: int, cutoff: int)
    ensures Prune(map[k := [t]], cutoff) == if t > cutoff then map[k := [t]] else map[]
  {
    KeptAppend([], t, cutoff);
    assert [] + [t] == [t];
  }

  /** The first grant of a key while a bucket of two is free. */
  lemma FirstOfKey(pruned: Buckets, history: seq<Grant>, c: Call)
    requires c.key !in pruned && |pruned| < 2 && c.maxAttempts == 1
    ensures AdmitCall(pruned, history, c, 2) == Limiter(pruned[c.key := [c.now]], history + [Grant(c.key, c.now)])
  {
    assert [] + [c.now] == [c.now];
  }

  lemma {:induction false} RunThree(a: Call, b: Call, c: Call, l1: Limiter, l2: Limiter, windowMs: int, maxBuckets: int)
    requires Step(Limiter(map[], []), a, windowMs, maxBuckets) == l1 && Step(l1, b, windowMs, maxBuckets) == l2
    ensures Run([a, b, c], windowMs, maxBuckets) == Step(l2, c, windowMs, maxBuckets)
  {
    assert [a, b, c][..2] == [a, b] && [a, b][..1] == [a] && [a][..0] == [];
    assert Run([a], windowMs, maxBuckets) == Step(Run([], windowMs, maxBuckets), a, windowMs, maxBuckets);
    assert Run([a, b], windowMs, maxBuckets) == Step(Run([a], windowMs, maxBuckets), b, windowMs, maxBuckets);
  }
}
