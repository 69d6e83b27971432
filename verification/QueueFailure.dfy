/** Retained queue failures: the grouping loop (apps/worker/src/failure-observation.ts) and the
    validator its output must pass (packages/shared/src/queue-failure.ts). */
module QueueFailure {
  import opened Common

  const SAMPLE_LIMIT: int := 100
  const MAX_SAFE: int := 9_007_199_254_740_991
  const MAX_DATE_MS: int := 8_640_000_000_000_000
  /** Years 0000 to 9999 are written with four digits. */
  const YEAR_ZERO_MS: int := -62_167_219_200_000
  const YEAR_10000_MS: int := 253_402_300_800_000

  const QUEUE_FAILURE_CLASSES: seq<string> := [
    "undefined_table", "undefined_column", "permission_denied", "authentication",
    "aborted_transaction", "not_null_violation", "check_violation", "unique_violation",
    "timeout", "connection", "stalled", "overlap", "budget_exhausted",
    "discovery_failed", "monitoring_failed", "query_failed", "invalid_envelope", "unknown"]

  const QUEUE_OBSERVED_JOB_TYPES: seq<string> := [
    "provider.sync.v1", "source.intelligence.normalize.v1", "tcg.market.normalize.v1",
    "creator.extract.v1", "intelligence.recompute.v1", "source_event.normalize", "other"]

  const TABLES: seq<string> := [
    "discovery_topic", "discovery_run", "discovered_creator", "discovery_request_budget", "discovery_creator_topic",
    "provider_runtime", "platform_outbox", "source_ingest", "source_content", "creator", "creator_call", "tcg_set",
    "tcg_printing", "tcg_score_snapshot"]

  predicate KnownClass(s: string) { s in QUEUE_FAILURE_CLASSES }
  predicate KnownType(s: string) { s in QUEUE_OBSERVED_JOB_TYPES }
  predicate KnownTable(s: string) { s in TABLES }

  // ----- Time texts -----

  predicate FourDigits(ms: int) { YEAR_ZERO_MS <= ms < YEAR_10000_MS }

  /** Order of the texts of two times from 1970 on: later than year 9999 they start with a plus
      sign, which sorts before every digit. */
  predicate TextBefore(a: int, b: int) {
    if FourDigits(a) == FourDigits(b) then a < b else FourDigits(b)
  }

  // ----- Jobs and groups -----

  datatype Job = Job(name: Option<string>, reason: Option<string>, finishedOn: Option<int>, attemptsMade: Option<int>)

  datatype Details = Details(errorClass: string, table: Option<string>)

  /** The error classification; of its regular expressions only the range of its answers is used. */
  type Classify = Option<string> -> Details

  ghost predicate InRange(classify: Classify) {
    forall r :: KnownClass(classify(r).errorClass) && (classify(r).table.Some? ==> KnownTable(classify(r).table.value))
  }

  datatype GroupKey = GroupKey(jobType: string, details: Details)

  datatype Group = Group(key: GroupKey, count: int, earliest: Option<int>, latest: Option<int>, maxAttempts: int)

  function ObservedJobType(name: Option<string>): string {
    if name.Some? && KnownType(name.value) then name.value else "other"
  }

  function KeyOf(classify: Classify, j: Job): GroupKey {
    GroupKey(ObservedJobType(j.name), classify(j.reason))
  }

  function Count(n: Option<int>): int {
    if n.Some? && 0 <= n.value <= MAX_SAFE then n.value else 0
  }

  function TimeOf(finishedOn: Option<int>): Option<int> {
    if finishedOn.Some? && 0 <= finishedOn.value <= MAX_DATE_MS then finishedOn else None
  }

  function Fresh(k: GroupKey): Group { Group(k, 0, None, None, 0) }

  function AddJob(g: Group, j: Job): Group {
    var at := TimeOf(j.finishedOn);
    Group(g.key, g.count + 1,
          if at.Some? && (g.earliest.None? || TextBefore(at.value, g.earliest.value)) then at else g.earliest,
          if at.Some? && (g.latest.None? || TextBefore(g.latest.value, at.value)) then at else g.latest,
          Max(g.maxAttempts, Count(j.attemptsMade)))
  }

  /** The group of a key, over all jobs with it, in order. */
  function Summary(classify: Classify, jobs: seq<Job>, k: GroupKey): Group {
    if jobs == [] then Fresh(k)
    else
      var g := Summary(classify, jobs[..|jobs| - 1], k);
      if KeyOf(classify, jobs[|jobs| - 1]) == k then AddJob(g, jobs[|jobs| - 1]) else g
  }

  predicate Occurs(classify: Classify, jobs: seq<Job>, k: GroupKey) {
    exists i :: 0 <= i < |jobs| && KeyOf(classify, jobs[i]) == k
  }

  /** The keys in order of first occurrence. */
  function KeyOrder(classify: Classify, jobs: seq<Job>): seq<GroupKey> {
    if jobs == [] then []
    else
      var before := KeyOrder(classify, jobs[..|jobs| - 1]);
      var k := KeyOf(classify, jobs[|jobs| - 1]);
      if k in before then before else before + [k]
  }

  function Summaries(classify: Classify, jobs: seq<Job>, order: seq<GroupKey>): seq<Group> {
    if order == [] then []
    else Summaries(classify, jobs, order[..|order| - 1]) + [Summary(classify, jobs, order[|order| - 1])]
  }

  function GroupsOf(classify: Classify, jobs: seq<Job>): seq<Group> {
    Summaries(classify, jobs, KeyOrder(classify, jobs))
  }

  /** The loop over a map that remembers insertion order. */
  method GroupJobs(classify: Classify, jobs: seq<Job>) returns (groups: seq<Group>)
    ensures groups == GroupsOf(classify, jobs)
  {
    var order: seq<GroupKey>, held: map<GroupKey, Group> := [], map[];
    for i := 0 to |jobs|
      invariant order == KeyOrder(classify, jobs[..i])
      invariant forall k :: k in order <==> k in held
      invariant forall k :: (if k in held then held[k] else Fresh(k)) == Summary(classify, jobs[..i], k)
    {
      assert jobs[..i + 1][..i] == jobs[..i];
      var k := KeyOf(classify, jobs[i]);
      var group := if k in held then held[k] else Fresh(k);
      if k !in held { order := order + [k]; }
      held := held[k := AddJob(group, jobs[i])];
    }
    assert jobs[..|jobs|] == jobs;
    groups := [];
    for i := 0 to |order|
      invariant groups == Summaries(classify, jobs, order[..i])
    {
      assert order[..i + 1][..i] == order[..i];
      assert order[i] in held;
      groups := groups + [held[order[i]]];
    }
    assert order[..|order|] == order;
  }

  // ----- What grouping keeps -----

  function CountOf(classify: Classify, jobs: seq<Job>, k: GroupKey): nat {
    if jobs == [] then 0
    else CountOf(classify, jobs[..|jobs| - 1], k) + if KeyOf(classify, jobs[|jobs| - 1]) == k then 1 else 0
  }

  /** A group counts exactly the sampled jobs with its key, and its attempts are their maximum. */
  lemma {:induction false} SummaryCounts(classify: Classify, jobs: seq<Job>, k: GroupKey)
    ensures Summary(classify, jobs, k).key == k
    ensures Summary(classify, jobs, k).count == CountOf(classify, jobs, k) <= |jobs|
    ensures CountOf(classify, jobs, k) > 0 <==> k in KeyOrder(classify, jobs)
  {
    if jobs != [] { SummaryCounts(classify, jobs[..|jobs| - 1], k); }
  }

  /** A usable attempts count of the key's jobs. */
  predicate IsAttempts(classify: Classify, jobs: seq<Job>, k: GroupKey, n: int) {
    && 0 <= n <= 9_007_199_254_740_991
    && exists i :: 0 <= i < |jobs| && KeyOf(classify, jobs[i]) == k && jobs[i].attemptsMade == Some(n)
  }

  lemma AttemptsAppend(classify: Classify, jobs: seq<Job>, k: GroupKey, n: int)
    requires jobs != []
    ensures IsAttempts(classify, jobs, k, n) <==> (IsAttempts(classify, jobs[..|jobs| - 1], k, n)
      || (KeyOf(classify, jobs[|jobs| - 1]) == k && jobs[|jobs| - 1].attemptsMade == Some(n) && Count(Some(n)) == n
          && 0 <= n))
  {
    var front := jobs[..|jobs| - 1];
    if IsAttempts(classify, front, k, n) {
      var i :| 0 <= i < |front| && KeyOf(classify, front[i]) == k && front[i].attemptsMade == Some(n);
      assert jobs[i] == front[i];
    }
  }

  /** The attempts of a group are the largest count of its jobs. */
  lemma {:induction false} AttemptsAreMaximal(classify: Classify, jobs: seq<Job>, k: GroupKey, n: int)
    ensures 0 <= Summary(classify, jobs, k).maxAttempts <= MAX_SAFE
    ensures IsAttempts(classify, jobs, k, n) ==> n <= Summary(classify, jobs, k).maxAttempts
    ensures Summary(classify, jobs, k).maxAttempts > 0 ==>
      IsAttempts(classify, jobs, k, Summary(classify, jobs, k).maxAttempts)
  {
    if jobs != [] {
      AttemptsAreMaximal(classify, jobs[..|jobs| - 1], k, n);
      AttemptsAppend(classify, jobs, k, n);
      AttemptsAppend(classify, jobs, k, Summary(classify, jobs, k).maxAttempts);
    }
  }

  /** A usable finish time of the key's jobs. */
  predicate IsTime(classify: Classify, jobs: seq<Job>, k: GroupKey, t: int) {
    && 0 <= t <= 8_640_000_000_000_000
    && exists i :: 0 <= i < |jobs| && KeyOf(classify, jobs[i]) == k && jobs[i].finishedOn == Some(t)
  }

  lemma TimeAppends(classify: Classify, jobs: seq<Job>, k: GroupKey, t: int)
    requires jobs != []
    ensures IsTime(classify, jobs, k, t) <==> (IsTime(classify, jobs[..|jobs| - 1], k, t)
      || (KeyOf(classify, jobs[|jobs| - 1]) == k && TimeOf(jobs[|jobs| - 1].finishedOn) == Some(t)))
  {
    var front := jobs[..|jobs| - 1];
    if IsTime(classify, front, k, t) {
      var i :| 0 <= i < |front| && KeyOf(classify, front[i]) == k && front[i].finishedOn == Some(t);
      assert jobs[i] == front[i];
    }
  }

  /** Earliest and latest are finish times of the key's jobs, and no other text sorts before
      the one or after the other. */
  lemma {:induction false} ExtremesByText(classify: Classify, jobs: seq<Job>, k: GroupKey, t: int)
    ensures var g := Summary(classify, jobs, k);
      && (g.earliest.Some? <==> g.latest.Some?)
      && (g.earliest.Some? ==> IsTime(classify, jobs, k, g.earliest.value) && IsTime(classify, jobs, k, g.latest.value))
      && (IsTime(classify, jobs, k, t) ==>
            g.earliest.Some? && !TextBefore(t, g.earliest.value) && !TextBefore(g.latest.value, t))
  {
    if jobs != [] {
      var front := jobs[..|jobs| - 1];
      var was, g := Summary(classify, front, k), Summary(classify, jobs, k);
      ExtremesByText(classify, front, k, t);
      TimeAppends(classify, jobs, k, t);
      if g.earliest.Some? {
        TimeAppends(classify, jobs, k, g.earliest.value);
        TimeAppends(classify, jobs, k, g.latest.value);
      }
    }
  }

  /** Absent, or written with a four-digit year. */
  predicate Readable(at: Option<int>) {
    at.Some? ==> FourDigits(at.value)
  }

  ghost predicate FourDigitTimes(classify: Classify, jobs: seq<Job>, k: GroupKey) {
    forall t :: IsTime(classify, jobs, k, t) ==> FourDigits(t)
  }

  /** Before year 10000 they are the true extremes. */
  lemma {:induction false} ExtremesAreTrue(classify: Classify, jobs: seq<Job>, k: GroupKey, t: int)
    requires FourDigitTimes(classify, jobs, k) && IsTime(classify, jobs, k, t)
    ensures Summary(classify, jobs, k).earliest.Some? && Summary(classify, jobs, k).latest.Some?
    ensures Summary(classify, jobs, k).earliest.value <= t <= Summary(classify, jobs, k).latest.value
  {
    ExtremesByText(classify, jobs, k, t);
  }

  /** A later time anywhere in the group surfaces as its earliest text. */
  lemma {:induction false} LateTimesSurface(classify: Classify, jobs: seq<Job>, k: GroupKey)
    ensures FourDigitTimes(classify, jobs, k)
      <==> Readable(Summary(classify, jobs, k).earliest) && Readable(Summary(classify, jobs, k).latest)
  {
    var g := Summary(classify, jobs, k);
    ExtremesByText(classify, jobs, k, 0);
    forall t | IsTime(classify, jobs, k, t) ensures g.earliest.Some? && !TextBefore(t, g.earliest.value) {
      ExtremesByText(classify, jobs, k, t);
    }
  }

  // ----- Conservation -----

  function SumCounts(groups: seq<Group>): int {
    if groups == [] then 0 else SumCounts(groups[..|groups| - 1]) + groups[|groups| - 1].count
  }

  ghost predicate Distinct(order: seq<GroupKey>) {
    forall i, j :: 0 <= i < j < |order| ==> order[i] != order[j]
  }

  lemma {:induction false} OrderIsDistinct(classify: Classify, jobs: seq<Job>)
    ensures Distinct(KeyOrder(classify, jobs))
  {
    if jobs != [] { OrderIsDistinct(classify, jobs[..|jobs| - 1]); }
  }

  lemma {:induction false} NoJobsNoCount(classify: Classify, order: seq<GroupKey>)
    ensures SumCounts(Summaries(classify, [], order)) == 0
  {
    if order != [] {
      NoJobsNoCount(classify, order[..|order| - 1]);
      SumAppend(Summaries(classify, [], order[..|order| - 1]), Summary(classify, [], order[|order| - 1]));
    }
  }

  lemma {:induction false} SumAppend(groups: seq<Group>, g: Group)
    ensures SumCounts(groups + [g]) == SumCounts(groups) + g.count
  {
    assert (groups + [g])[..|groups|] == groups;
  }

  /** One more job raises the sum over distinct keys by one, if its key is among them. */
  lemma {:induction false} OneMoreJob(classify: Classify, jobs: seq<Job>, order: seq<GroupKey>)
    requires jobs != [] && Distinct(order)
    ensures SumCounts(Summaries(classify, jobs, order))
      == SumCounts(Summaries(classify, jobs[..|jobs| - 1], order))
       + if KeyOf(classify, jobs[|jobs| - 1]) in order then 1 else 0
  {
    if order != [] {
      var front, k := order[..|order| - 1], order[|order| - 1];
      OneMoreJob(classify, jobs, front);
      SumAppend(Summaries(classify, jobs, front), Summary(classify, jobs, k));
      SumAppend(Summaries(classify, jobs[..|jobs| - 1], front), Summary(classify, jobs[..|jobs| - 1], k));
      assert order == front + [k];
      assert k !in front;
    }
  }

  lemma {:induction false} SumIsJobs(classify: Classify, jobs: seq<Job>, order: seq<GroupKey>)
    requires Distinct(order) && forall k :: k in KeyOrder(classify, jobs) ==> k in order
    ensures SumCounts(Summaries(classify, jobs, order)) == |jobs|
  {
    if jobs == [] {
      NoJobsNoCount(classify, order);
    } else {
      OneMoreJob(classify, jobs, order);
      SumIsJobs(classify, jobs[..|jobs| - 1], order);
    }
  }

  lemma {:induction false} SummariesAt(classify: Classify, jobs: seq<Job>, order: seq<GroupKey>, i: nat)
    requires i < |order|
    ensures |Summaries(classify, jobs, order)| == |order|
    ensures Summaries(classify, jobs, order)[i] == Summary(classify, jobs, order[i])
  {
    if i < |order| - 1 {
      SummariesAt(classify, jobs, order[..|order| - 1], i);
    } else if |order| > 1 {
      SummariesAt(classify, jobs, order[..|order| - 1], 0);
    }
  }

  lemma {:induction false} FewGroups(groups: seq<Group>)
    requires forall i :: 0 <= i < |groups| ==> groups[i].count >= 1
    ensures |groups| <= SumCounts(groups)
  {
    if groups != [] { FewGroups(groups[..|groups| - 1]); }
  }

  /** Grouping conserves jobs: one group per key that occurs, each counting the jobs with its key,
      all of them adding up to the sample. */
  lemma {:induction false} GroupingConservesJobs(classify: Classify, jobs: seq<Job>)
    ensures SumCounts(GroupsOf(classify, jobs)) == |jobs|
    ensures |GroupsOf(classify, jobs)| <= |jobs|
    ensures forall i :: 0 <= i < |GroupsOf(classify, jobs)| ==>
      var g := GroupsOf(classify, jobs)[i];
      g == Summary(classify, jobs, g.key) && 1 <= g.count == CountOf(classify, jobs, g.key)
    ensures forall i, j :: 0 <= i < j < |GroupsOf(classify, jobs)| ==>
      GroupsOf(classify, jobs)[i].key != GroupsOf(classify, jobs)[j].key
  {
    var order, groups := KeyOrder(classify, jobs), GroupsOf(classify, jobs);
    OrderIsDistinct(classify, jobs);
    SumIsJobs(classify, jobs, order);
    assert |groups| == |order| by { if order != [] { SummariesAt(classify, jobs, order, 0); } }
    forall i | 0 <= i < |groups|
      ensures groups[i].key == order[i] && groups[i] == Summary(classify, jobs, order[i])
      ensures 1 <= groups[i].count == CountOf(classify, jobs, order[i])
    {
      SummariesAt(classify, jobs, order, i);
      SummaryCounts(classify, jobs, order[i]);
    }
    FewGroups(groups);
  }

  // ----- Snapshots -----

  datatype Status = Inspected | Unavailable

  datatype Snapshot = Snapshot(
    sampledAt: int, status: Status, retained: Option<int>, sampleLimit: int, sampledJobs: int, truncated: bool,
    errorClass: Option<string>, groups: seq<Group>)

  /** What the queue answers: a throw, or a count (absent unless it is a number) and entries
      (absent unless they are an array), of which empty ones are dropped. */
  datatype Answer = Throws(reason: Option<string>) | Answers(retained: Option<int>, entries: Option<seq<Option<Job>>>)

  function Present(entries: seq<Option<Job>>): seq<Job> {
    if entries == [] then []
    else Present(entries[..|entries| - 1]) + if entries[|entries| - 1].Some? then [entries[|entries| - 1].value] else []
  }

  function Sample(entries: seq<Option<Job>>): seq<Job> {
    if |Present(entries)| > SAMPLE_LIMIT then Present(entries)[..SAMPLE_LIMIT] else Present(entries)
  }

  predicate Usable(a: Answer) {
    a.Answers? && a.retained.Some? && 0 <= a.retained.value <= MAX_SAFE && a.entries.Some?
  }

  function UnavailableSnapshot(now: int, errorClass: string): Snapshot {
    Snapshot(now, Unavailable, None, SAMPLE_LIMIT, 0, false, Some(errorClass), [])
  }

  function InspectedSnapshot(classify: Classify, retained: int, jobs: seq<Job>, now: int): Snapshot {
    Snapshot(now, Inspected, Some(retained), SAMPLE_LIMIT, |jobs|, retained > |jobs|, None, GroupsOf(classify, jobs))
  }

  function Inspection(classify: Classify, a: Answer, now: int): Snapshot {
    if Usable(a) then InspectedSnapshot(classify, a.retained.value, Sample(a.entries.value), now)
    else UnavailableSnapshot(now, classify(if a.Throws? then a.reason else Some("invalid_queue_inspection")).errorClass)
  }

  method InspectRetainedFailures(classify: Classify, a: Answer, now: int) returns (s: Snapshot)
    ensures s == Inspection(classify, a, now)
  {
    if a.Throws? { return UnavailableSnapshot(now, classify(a.reason).errorClass); }
    if a.retained.None? || a.retained.value < 0 || a.retained.value > MAX_SAFE || a.entries.None? {
      return UnavailableSnapshot(now, classify(Some("invalid_queue_inspection")).errorClass);
    }
    var jobs := Sample(a.entries.value);
    var groups := GroupJobs(classify, jobs);
    return Snapshot(now, Inspected, a.retained, SAMPLE_LIMIT, |jobs|, a.retained.value > |jobs|, None, groups);
  }

  // ----- The validator, on values of unknown shape -----

  /** A field of an unchecked object. `Iso` is the text of a time, `Text` any other text. */
  datatype Scalar = Null | Undefined | Flag(b: bool) | Int(n: int) | Text(s: string) | Iso(ms: int) | OtherValue

  datatype RawGroup = RawGroup(
    jobType: Scalar, errorClass: Scalar, queryTable: Scalar, count: Scalar, earliest: Scalar, latest: Scalar,
    maxAttempts: Scalar)

  datatype RawItem = Record(row: RawGroup) | NotARecord

  datatype RawGroups = Items(items: seq<RawItem>) | NotAnArray

  datatype Raw = Object(
    version: Scalar, sampledAt: Scalar, status: Scalar, retained: Scalar, sampleLimit: Scalar, sampledJobs: Scalar,
    truncated: Scalar, errorClass: Scalar, groups: RawGroups) | NotAnObject

  const VERSION: string := "queue-failures.v1"
  const INSPECTED: string := "inspected"
  const UNAVAILABLE: string := "unavailable"

  predicate Bounded(v: Scalar, max: int) { v.Int? && 0 <= v.n <= max && v.n <= MAX_SAFE }

  predicate Timestamp(v: Scalar) { v.Iso? && FourDigits(v.ms) }

  predicate NullOrTime(v: Scalar) { v == Null || Timestamp(v) }

  function TimeIn(v: Scalar): Option<int> {
    if v.Iso? then Some(v.ms) else None
  }

  function TextIn(v: Scalar): Option<string> {
    if v.Text? then Some(v.s) else None
  }

  function ReadGroup(item: RawItem): Option<Group> {
    if item.NotARecord? then None
    else
      var row := item.row;
      if && row.jobType.Text? && KnownType(row.jobType.s)
         && row.errorClass.Text? && KnownClass(row.errorClass.s)
         && (row.queryTable == Null || (row.queryTable.Text? && KnownTable(row.queryTable.s)))
         && Bounded(row.count, SAMPLE_LIMIT) && Bounded(row.maxAttempts, MAX_SAFE)
         && NullOrTime(row.earliest) && NullOrTime(row.latest)
      then Some(Group(GroupKey(row.jobType.s, Details(row.errorClass.s, TextIn(row.queryTable))), row.count.n,
                      TimeIn(row.earliest), TimeIn(row.latest), row.maxAttempts.n))
      else None
  }

  function ReadGroups(items: seq<RawItem>): Option<seq<Group>> {
    if items == [] then Some([])
    else
      var before := ReadGroups(items[..|items| - 1]);
      var g := ReadGroup(items[|items| - 1]);
      if before.Some? && g.Some? then Some(before.value + [g.value]) else None
  }

  predicate HeaderOk(raw: Raw) {
    && raw.Object? && raw.version == Text(VERSION) && Timestamp(raw.sampledAt)
    && (raw.status == Text(INSPECTED) || raw.status == Text(UNAVAILABLE))
    && Bounded(raw.sampleLimit, SAMPLE_LIMIT) && Bounded(raw.sampledJobs, raw.sampleLimit.n) && raw.truncated.Flag?
    && (raw.retained == Null || Bounded(raw.retained, MAX_SAFE))
    && (raw.errorClass == Null || (raw.errorClass.Text? && KnownClass(raw.errorClass.s)))
    && raw.groups.Items? && |raw.groups.items| <= SAMPLE_LIMIT
  }

  function Built(raw: Raw, groups: seq<Group>): Snapshot
    requires HeaderOk(raw)
  {
    Snapshot(
      raw.sampledAt.ms,
      if raw.status == Text(INSPECTED) then Inspected else Unavailable,
      if raw.retained.Int? then Some(raw.retained.n) else None,
      raw.sampleLimit.n, raw.sampledJobs.n, raw.truncated.b, TextIn(raw.errorClass), groups)
  }

  function ReadSnapshot(raw: Raw): Option<Snapshot> {
    if !HeaderOk(raw) then None
    else
      var groups := ReadGroups(raw.groups.items);
      if groups.None? || SumCounts(groups.value) != raw.sampledJobs.n then None else Some(Built(raw, groups.value))
  }

  lemma {:induction false} ReadingStops(items: seq<RawItem>, i: nat)
    requires i <= |items| && ReadGroups(items[..i]).None?
    ensures ReadGroups(items).None?
    decreases |items|
  {
    if i == |items| {
      assert items[..i] == items;
    } else {
      assert items[..|items| - 1][..i] == items[..i];
      ReadingStops(items[..|items| - 1], i);
    }
  }

  method ReadItems(items: seq<RawItem>) returns (groups: Option<seq<Group>>)
    ensures groups == ReadGroups(items)
  {
    var read: seq<Group> := [];
    for i := 0 to |items|
      invariant ReadGroups(items[..i]) == Some(read)
    {
      assert items[..i + 1][..i] == items[..i];
      var g := ReadGroup(items[i]);
      if g.None? {
        ReadingStops(items, i + 1);
        return None;
      }
      read := read + [g.value];
    }
    assert items[..|items|] == items;
    return Some(read);
  }

  method ReadQueueFailureSnapshot(raw: Raw) returns (s: Option<Snapshot>)
    ensures s == ReadSnapshot(raw)
  {
    if !HeaderOk(raw) { return None; }
    var groups := ReadItems(raw.groups.items);
    if groups.None? { return None; }
    return if SumCounts(groups.value) != raw.sampledJobs.n then None else Some(Built(raw, groups.value));
  }

  // ----- What the validator accepts -----

  function Encode(at: Option<int>): Scalar { if at.Some? then Iso(at.value) else Null }

  function EncodeText(t: Option<string>): Scalar { if t.Some? then Text(t.value) else Null }

  function EncodeGroup(g: Group): RawItem {
    Record(RawGroup(Text(g.key.jobType), Text(g.key.details.errorClass), EncodeText(g.key.details.table), Int(g.count),
                    Encode(g.earliest), Encode(g.latest), Int(g.maxAttempts)))
  }

  function EncodeGroups(groups: seq<Group>): seq<RawItem> {
    if groups == [] then [] else EncodeGroups(groups[..|groups| - 1]) + [EncodeGroup(groups[|groups| - 1])]
  }

  /** A snapshot as the plain object a reader receives. */
  function EncodeSnapshot(s: Snapshot): Raw {
    Object(
      Text(VERSION), Iso(s.sampledAt), Text(if s.status == Inspected then INSPECTED else UNAVAILABLE),
      if s.retained.Some? then Int(s.retained.value) else Null,
      Int(s.sampleLimit), Int(s.sampledJobs), Flag(s.truncated),
      EncodeText(s.errorClass), Items(EncodeGroups(s.groups)))
  }

  predicate GroupOk(g: Group) {
    && KnownType(g.key.jobType) && KnownClass(g.key.details.errorClass)
    && (g.key.details.table.Some? ==> KnownTable(g.key.details.table.value))
    && 0 <= g.count <= SAMPLE_LIMIT && 0 <= g.maxAttempts <= MAX_SAFE
    && Readable(g.earliest) && Readable(g.latest)
  }

  predicate GroupsOk(groups: seq<Group>) {
    groups == [] || (GroupsOk(groups[..|groups| - 1]) && GroupOk(groups[|groups| - 1]))
  }

  lemma EncodedGroupReads(g: Group)
    ensures ReadGroup(EncodeGroup(g)) == if GroupOk(g) then Some(g) else None
  {
  }

  lemma {:induction false} ReadAppend(items: seq<RawItem>, item: RawItem)
    ensures ReadGroups(items + [item])
      == if ReadGroups(items).None? || ReadGroup(item).None? then None
         else Some(ReadGroups(items).value + [ReadGroup(item).value])
  {
    assert (items + [item])[..|items|] == items;
  }

  lemma {:induction false} EncodedLength(groups: seq<Group>)
    ensures |EncodeGroups(groups)| == |groups|
  {
    if groups != [] { EncodedLength(groups[..|groups| - 1]); }
  }

  lemma {:induction false} EncodedGroupsRead(groups: seq<Group>)
    ensures ReadGroups(EncodeGroups(groups)) == if GroupsOk(groups) then Some(groups) else None
  {
    if groups != [] {
      var front, g := groups[..|groups| - 1], groups[|groups| - 1];
      EncodedGroupsRead(front);
      EncodedStepReads(front, g, EncodeGroup(g));
      assert front + [g] == groups;
    }
  }

  lemma {:induction false} EncodedStepReads(front: seq<Group>, g: Group, item: RawItem)
    requires item == EncodeGroup(g)
    requires ReadGroups(EncodeGroups(front)) == if GroupsOk(front) then Some(front) else None
    ensures ReadGroups(EncodeGroups(front) + [item])
      == if GroupsOk(front) && GroupOk(g) then Some(front + [g]) else None
  {
    ReadAppend(EncodeGroups(front), item);
    EncodedGroupReads(g);
  }

  predicate HeadOk(s: Snapshot) {
    && FourDigits(s.sampledAt) && 0 <= s.sampleLimit <= SAMPLE_LIMIT && 0 <= s.sampledJobs <= s.sampleLimit
    && (s.retained.Some? ==> 0 <= s.retained.value <= MAX_SAFE)
    && (s.errorClass.Some? ==> KnownClass(s.errorClass.value))
    && |s.groups| <= SAMPLE_LIMIT
  }

  predicate SnapshotOk(s: Snapshot) {
    HeadOk(s) && GroupsOk(s.groups) && SumCounts(s.groups) == s.sampledJobs
  }

  lemma StatusTextsDiffer()
    ensures INSPECTED != UNAVAILABLE
  {
    assert INSPECTED[0] != UNAVAILABLE[0];
  }

  lemma EncodedHeader(s: Snapshot)
    ensures HeaderOk(EncodeSnapshot(s)) <==> HeadOk(s)
  {
    EncodedLength(s.groups);
  }

  lemma EncodedBuilds(s: Snapshot)
    requires HeaderOk(EncodeSnapshot(s))
    ensures Built(EncodeSnapshot(s), s.groups) == s
  {
    StatusTextsDiffer();
  }

  lemma ReadingEncoded(s: Snapshot, raw: Raw)
    requires raw.Object? && raw.groups == Items(EncodeGroups(s.groups)) && raw.sampledJobs == Int(s.sampledJobs)
    requires HeaderOk(raw) <==> HeadOk(s)
    requires HeaderOk(raw) ==> Built(raw, s.groups) == s
    requires ReadGroups(EncodeGroups(s.groups)) == if GroupsOk(s.groups) then Some(s.groups) else None
    ensures ReadSnapshot(raw) == if SnapshotOk(s) then Some(s) else None
  {
  }

  /** The validator accepts exactly the sound snapshots, and returns them unchanged. */
  lemma EncodedSnapshotReads(s: Snapshot)
    ensures ReadSnapshot(EncodeSnapshot(s)) == if SnapshotOk(s) then Some(s) else None
  {
    EncodedHeader(s);
    if HeaderOk(EncodeSnapshot(s)) { EncodedBuilds(s); }
    EncodedGroupsRead(s.groups);
    ReadingEncoded(s, EncodeSnapshot(s));
  }

  lemma {:induction false} ReadGroupsAreOk(items: seq<RawItem>)
    requires ReadGroups(items).Some?
    ensures GroupsOk(ReadGroups(items).value) && |ReadGroups(items).value| == |items|
  {
    if items != [] {
      var before := ReadGroups(items[..|items| - 1]).value;
      var g := ReadGroup(items[|items| - 1]).value;
      ReadGroupsAreOk(items[..|items| - 1]);
      assert (before + [g])[..|before|] == before;
    }
  }

  /** Whatever it accepts, its output is sound, so reading it again returns the same. */
  lemma ReadingIsSettled(raw: Raw)
    requires ReadSnapshot(raw).Some?
    ensures SnapshotOk(ReadSnapshot(raw).value)
    ensures ReadSnapshot(EncodeSnapshot(ReadSnapshot(raw).value)) == ReadSnapshot(raw)
  {
    ReadGroupsAreOk(raw.groups.items);
    EncodedSnapshotReads(ReadSnapshot(raw).value);
  }

  // ----- Every inspection passes -----

  lemma OtherIsKnown()
    ensures KnownType("other")
  {
    assert QUEUE_OBSERVED_JOB_TYPES[6] == "other";
  }

  lemma OccursAppends(classify: Classify, jobs: seq<Job>, k: GroupKey)
    requires jobs != []
    ensures Occurs(classify, jobs, k)
      <==> Occurs(classify, jobs[..|jobs| - 1], k) || KeyOf(classify, jobs[|jobs| - 1]) == k
  {
    var front := jobs[..|jobs| - 1];
    if Occurs(classify, front, k) {
      var i :| 0 <= i < |front| && KeyOf(classify, front[i]) == k;
      assert jobs[i] == front[i];
    }
  }

  lemma {:induction false} OrderedKeysOccur(classify: Classify, jobs: seq<Job>, k: GroupKey)
    ensures k in KeyOrder(classify, jobs) <==> Occurs(classify, jobs, k)
  {
    if jobs != [] {
      OrderedKeysOccur(classify, jobs[..|jobs| - 1], k);
      OccursAppends(classify, jobs, k);
    }
  }

  predicate KeyInRange(k: GroupKey) {
    && KnownType(k.jobType) && KnownClass(k.details.errorClass)
    && (k.details.table.Some? ==> KnownTable(k.details.table.value))
  }

  lemma JobKeyInRange(classify: Classify, j: Job)
    requires InRange(classify)
    ensures KeyInRange(KeyOf(classify, j))
  {
    OtherIsKnown();
  }

  /** A group passes exactly when none of its finish times is past year 9999. */
  lemma {:induction false} SummaryPasses(classify: Classify, jobs: seq<Job>, k: GroupKey)
    requires KeyInRange(k) && |jobs| <= SAMPLE_LIMIT
    ensures GroupOk(Summary(classify, jobs, k)) <==> FourDigitTimes(classify, jobs, k)
  {
    SummaryCounts(classify, jobs, k);
    AttemptsAreMaximal(classify, jobs, k, 0);
    LateTimesSurface(classify, jobs, k);
  }

  lemma {:induction false} GroupsOkAt(groups: seq<Group>, i: nat)
    requires GroupsOk(groups) && i < |groups|
    ensures GroupOk(groups[i])
  {
    if i < |groups| - 1 { GroupsOkAt(groups[..|groups| - 1], i); }
  }

  lemma {:induction false} GroupsOkAll(groups: seq<Group>, n: nat)
    requires n <= |groups| && forall i :: 0 <= i < n ==> GroupOk(groups[i])
    ensures GroupsOk(groups[..n])
  {
    if n > 0 {
      GroupsOkAll(groups, n - 1);
      assert groups[..n][..n - 1] == groups[..n - 1];
    }
  }

  ghost predicate AllFourDigits(jobs: seq<Job>) {
    forall i :: 0 <= i < |jobs| ==> Readable(TimeOf(jobs[i].finishedOn))
  }

  lemma {:induction false} TimesByKey(classify: Classify, jobs: seq<Job>)
    ensures AllFourDigits(jobs) <==> forall k :: k in KeyOrder(classify, jobs) ==> FourDigitTimes(classify, jobs, k)
  {
    if forall k :: k in KeyOrder(classify, jobs) ==> FourDigitTimes(classify, jobs, k) {
      forall i | 0 <= i < |jobs| ensures Readable(TimeOf(jobs[i].finishedOn)) {
        var k := KeyOf(classify, jobs[i]);
        OrderedKeysOccur(classify, jobs, k);
        assert Occurs(classify, jobs, k) && FourDigitTimes(classify, jobs, k);
        if TimeOf(jobs[i].finishedOn).Some? { assert IsTime(classify, jobs, k, TimeOf(jobs[i].finishedOn).value); }
      }
    }
  }

  lemma GroupsPass(classify: Classify, jobs: seq<Job>)
    requires InRange(classify) && |jobs| <= SAMPLE_LIMIT
    ensures GroupsOk(GroupsOf(classify, jobs)) <==> AllFourDigits(jobs)
  {
    var order, groups := KeyOrder(classify, jobs), GroupsOf(classify, jobs);
    assert |groups| == |order| by { if order != [] { SummariesAt(classify, jobs, order, 0); } }
    forall i | 0 <= i < |order|
      ensures groups[i] == Summary(classify, jobs, order[i])
      ensures GroupOk(Summary(classify, jobs, order[i])) <==> FourDigitTimes(classify, jobs, order[i])
    {
      SummariesAt(classify, jobs, order, i);
      OrderedKeysOccur(classify, jobs, order[i]);
      var n :| 0 <= n < |jobs| && KeyOf(classify, jobs[n]) == order[i];
      JobKeyInRange(classify, jobs[n]);
      SummaryPasses(classify, jobs, order[i]);
    }
    TimesByKey(classify, jobs);
    if AllFourDigits(jobs) {
      GroupsOkAll(groups, |groups|);
      assert groups[..|groups|] == groups;
    } else {
      var k :| k in order && !FourDigitTimes(classify, jobs, k);
      var i :| 0 <= i < |order| && order[i] == k;
      if GroupsOk(groups) { GroupsOkAt(groups, i); }
    }
  }

  lemma SampleIsBounded(entries: seq<Option<Job>>)
    ensures |Sample(entries)| <= SAMPLE_LIMIT
  {
  }

  /** The validator accepts an inspected snapshot, unchanged, exactly when its own time and every
      sampled finish time lie before year 10000. */
  lemma InspectedPasses(classify: Classify, retained: int, jobs: seq<Job>, now: int)
    requires InRange(classify) && 0 <= retained <= MAX_SAFE && |jobs| <= SAMPLE_LIMIT
    ensures ReadSnapshot(EncodeSnapshot(InspectedSnapshot(classify, retained, jobs, now)))
      == if FourDigits(now) && AllFourDigits(jobs) then Some(InspectedSnapshot(classify, retained, jobs, now)) else None
  {
    EncodedSnapshotReads(InspectedSnapshot(classify, retained, jobs, now));
    GroupingConservesJobs(classify, jobs);
    GroupsPass(classify, jobs);
  }

  lemma UnavailablePasses(now: int, errorClass: string)
    requires KnownClass(errorClass)
    ensures ReadSnapshot(EncodeSnapshot(UnavailableSnapshot(now, errorClass)))
      == if FourDigits(now) then Some(UnavailableSnapshot(now, errorClass)) else None
  {
    EncodedSnapshotReads(UnavailableSnapshot(now, errorClass));
  }

  /** Every snapshot the inspection builds, inspected or unavailable, is accepted unchanged for
      times before year 10000. */
  lemma InspectionsPass(classify: Classify, a: Answer, now: int)
    requires InRange(classify)
    ensures ReadSnapshot(EncodeSnapshot(Inspection(classify, a, now))) == Some(Inspection(classify, a, now))
      <==> FourDigits(now) && (Usable(a) ==> AllFourDigits(Sample(a.entries.value)))
  {
    if Usable(a) {
      SampleIsBounded(a.entries.value);
      InspectedPasses(classify, a.retained.value, Sample(a.entries.value), now);
    } else {
      UnavailablePasses(now, classify(if a.Throws? then a.reason else Some("invalid_queue_inspection")).errorClass);
    }
  }
}
