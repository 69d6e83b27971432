/** What an inspection of retained failures reports and what its reader accepts, field by field
    (apps/worker/src/failure-observation.ts, packages/shared/src/queue-failure.ts). */
module FailureOutcome {
  import opened Common
  import opened QueueFailure

  // ----- The sample -----

  /** The positions before `p` that hold a job. */
  ghost function Held(entries: seq<Option<Job>>, p: nat): set<nat>
    requires p <= |entries|
  {
    set i: nat | i < p && entries[i].Some?
  }

  lemma HeldNext(entries: seq<Option<Job>>, p: nat)
    requires p < |entries|
    ensures Held(entries, p + 1) == Held(entries, p) + if entries[p].Some? then {p} else {}
  {
  }

  lemma {:induction false} PresentByRank(entries: seq<Option<Job>>, n: nat, p: nat)
    requires n <= |entries|
    ensures |Present(entries[..n])| == |Held(entries, n)|
    ensures p < n && entries[p].Some? ==>
      |Held(entries, p)| < |Held(entries, n)| && Present(entries[..n])[|Held(entries, p)|] == entries[p].value
  {
    if n == 0 {
      assert Held(entries, n) == {};
    } else {
      PresentByRank(entries, n - 1, p);
      HeldNext(entries, n - 1);
      assert entries[..n][..n - 1] == entries[..n - 1] && entries[..n][n - 1] == entries[n - 1];
    }
  }

  /** The sample are the first hundred jobs: a job with fewer than a hundred before it stands at the place
      that their number gives. */
  lemma SampleByRank(entries: seq<Option<Job>>, p: nat)
    ensures |Sample(entries)| == Min(100, |Held(entries, |entries|)|)
    ensures p < |entries| && entries[p].Some? && |Held(entries, p)| < 100 ==>
      |Held(entries, p)| < |Sample(entries)| && Sample(entries)[|Held(entries, p)|] == entries[p].value
  {
    PresentByRank(entries, |entries|, p);
    assert entries[..|entries|] == entries;
  }

  // ----- The groups -----

  /** A job belongs to a group: its name, when it is one of the seven known, and the classification of its
      failure are those of the key. */
  ghost predicate Belongs(classify: Classify, j: Job, k: GroupKey) {
    && k.details == classify(j.reason)
    && k.jobType
       == if j.name.Some? && j.name.value in {
            "provider.sync.v1", "source.intelligence.normalize.v1", "tcg.market.normalize.v1", "creator.extract.v1",
            "intelligence.recompute.v1", "source_event.normalize", "other"}
          then j.name.value else "other"
  }

  lemma KnownTypes(s: string)
    ensures KnownType(s) <==> s in {
      "provider.sync.v1", "source.intelligence.normalize.v1", "tcg.market.normalize.v1", "creator.extract.v1",
      "intelligence.recompute.v1", "source_event.normalize", "other"}
  {
    var types := QUEUE_OBSERVED_JOB_TYPES;
    assert types[0] == "provider.sync.v1" && types[1] == "source.intelligence.normalize.v1"
      && types[2] == "tcg.market.normalize.v1" && types[3] == "creator.extract.v1"
      && types[4] == "intelligence.recompute.v1" && types[5] == "source_event.normalize" && types[6] == "other";
  }

  lemma KeyMeansBelongs(classify: Classify, j: Job, k: GroupKey)
    ensures KeyOf(classify, j) == k <==> Belongs(classify, j, k)
  {
    if j.name.Some? { KnownTypes(j.name.value); }
  }

  /** The positions of a group's jobs. */
  ghost function Belonging(classify: Classify, jobs: seq<Job>, k: GroupKey): set<nat> {
    set i: nat | i < |jobs| && Belongs(classify, jobs[i], k)
  }

  ghost function WithKey(classify: Classify, jobs: seq<Job>, k: GroupKey): set<nat> {
    set i: nat | i < |jobs| && KeyOf(classify, jobs[i]) == k
  }

  lemma WithKeyAppends(classify: Classify, jobs: seq<Job>, j: Job, k: GroupKey)
    ensures |WithKey(classify, jobs + [j], k)|
      == |WithKey(classify, jobs, k)| + if KeyOf(classify, j) == k then 1 else 0
  {
    var all := jobs + [j];
    assert all[|jobs|] == j && forall i :: 0 <= i < |jobs| ==> all[i] == jobs[i];
    assert WithKey(classify, all, k)
        == WithKey(classify, jobs, k) + if KeyOf(classify, j) == k then {|jobs|} else {};
  }

  lemma {:induction false} CountAppends(classify: Classify, jobs: seq<Job>, j: Job, k: GroupKey)
    ensures CountOf(classify, jobs + [j], k) == CountOf(classify, jobs, k) + if KeyOf(classify, j) == k then 1 else 0
  {
    assert (jobs + [j])[..|jobs|] == jobs;
  }

  lemma {:induction false} CountIsWithKey(classify: Classify, jobs: seq<Job>, k: GroupKey)
    ensures CountOf(classify, jobs, k) == |WithKey(classify, jobs, k)|
  {
    if jobs == [] {
      assert WithKey(classify, jobs, k) == {};
    } else {
      var front, j := jobs[..|jobs| - 1], jobs[|jobs| - 1];
      CountIsWithKey(classify, front, k);
      WithKeyAppends(classify, front, j, k);
      CountAppends(classify, front, j, k);
      assert jobs == front + [j];
    }
  }

  lemma {:induction false} CountIsPositions(classify: Classify, jobs: seq<Job>, k: GroupKey)
    ensures CountOf(classify, jobs, k) == |Belonging(classify, jobs, k)|
  {
    CountIsWithKey(classify, jobs, k);
    forall i: nat | i < |jobs| ensures i in WithKey(classify, jobs, k) <==> i in Belonging(classify, jobs, k) {
      KeyMeansBelongs(classify, jobs[i], k);
    }
    assert WithKey(classify, jobs, k) == Belonging(classify, jobs, k);
  }

  /** There is a group for every key that some sampled job has, and it counts the jobs with the key. */
  lemma GroupsByKey(classify: Classify, jobs: seq<Job>, k: GroupKey)
    ensures Belonging(classify, jobs, k) != {} <==>
      exists i :: 0 <= i < |GroupsOf(classify, jobs)| && GroupsOf(classify, jobs)[i].key == k
    ensures forall i :: 0 <= i < |GroupsOf(classify, jobs)| && GroupsOf(classify, jobs)[i].key == k ==>
      GroupsOf(classify, jobs)[i].count == |Belonging(classify, jobs, k)|
  {
    GroupingConservesJobs(classify, jobs);
    CountIsPositions(classify, jobs, k);
    SummaryCounts(classify, jobs, k);
    var order := KeyOrder(classify, jobs);
    if k in order {
      var i :| 0 <= i < |order| && order[i] == k;
      SummariesAt(classify, jobs, order, i);
      assert GroupsOf(classify, jobs)[i].key == k;
    }
  }

  /** A job of the one key comes before every job of the other. */
  ghost predicate FoundBefore(classify: Classify, jobs: seq<Job>, first: GroupKey, second: GroupKey) {
    exists p :: 0 <= p < |jobs| && KeyOf(classify, jobs[p]) == first
      && forall q :: 0 <= q <= p ==> KeyOf(classify, jobs[q]) != second
  }

  lemma {:induction false} OrderByFirst(classify: Classify, jobs: seq<Job>, i: nat, j: nat)
    requires i < j < |KeyOrder(classify, jobs)|
    ensures FoundBefore(classify, jobs, KeyOrder(classify, jobs)[i], KeyOrder(classify, jobs)[j])
  {
    var front := jobs[..|jobs| - 1];
    var before, order := KeyOrder(classify, front), KeyOrder(classify, jobs);
    assert forall p :: 0 <= p < |front| ==> jobs[p] == front[p];
    if j < |before| {
      OrderByFirst(classify, front, i, j);
      var p :| 0 <= p < |front| && KeyOf(classify, front[p]) == order[i]
        && forall q :: 0 <= q <= p ==> KeyOf(classify, front[q]) != order[j];
      assert KeyOf(classify, jobs[p]) == order[i];
    } else {
      OrderedKeysOccur(classify, front, order[i]);
      OrderedKeysOccur(classify, front, order[j]);
      var p :| 0 <= p < |front| && KeyOf(classify, front[p]) == order[i];
      assert KeyOf(classify, jobs[p]) == order[i];
    }
  }

  /** Groups are listed in the order in which their first jobs were sampled. */
  lemma GroupsByFirst(classify: Classify, jobs: seq<Job>, i: nat, j: nat)
    requires i < j < |GroupsOf(classify, jobs)|
    ensures FoundBefore(classify, jobs, GroupsOf(classify, jobs)[i].key, GroupsOf(classify, jobs)[j].key)
  {
    var order := KeyOrder(classify, jobs);
    if order != [] { SummariesAt(classify, jobs, order, 0); }
    SummariesAt(classify, jobs, order, i);
    SummariesAt(classify, jobs, order, j);
    SummaryCounts(classify, jobs, order[i]);
    SummaryCounts(classify, jobs, order[j]);
    OrderByFirst(classify, jobs, i, j);
  }

  // ----- The snapshot -----

  /** Every field of an inspection. */
  lemma InspectionByFields(classify: Classify, a: Answer, now: int)
    ensures var s := Inspection(classify, a, now);
      var usable := a.Answers? && a.entries.Some? && a.retained.Some? && 0 <= a.retained.value <= 9_007_199_254_740_991;
      && s.sampledAt == now && s.sampleLimit == 100
      && if usable then
           var jobs := Sample(a.entries.value);
           && s.status == Inspected && s.errorClass == None && s.retained == a.retained
           && s.sampledJobs == |jobs| == Min(100, |Held(a.entries.value, |a.entries.value|)|)
           && s.truncated == (a.retained.value > |jobs|) && s.groups == GroupsOf(classify, jobs)
         else
           && s.status == Unavailable && s.retained == None && s.sampledJobs == 0 && !s.truncated && s.groups == []
           && s.errorClass
              == Some(classify(if a.Throws? then a.reason else Some("invalid_queue_inspection")).errorClass)
  {
    if a.Answers? && a.entries.Some? { SampleByRank(a.entries.value, 0); }
  }

  // ----- The reader -----

  lemma GroupReadIsEncoded(item: RawItem, g: Group)
    requires ReadGroup(item) == Some(g)
    ensures item == EncodeGroup(g)
  {
  }

  lemma {:induction false} GroupsReadAreEncoded(items: seq<RawItem>, groups: seq<Group>)
    requires ReadGroups(items) == Some(groups)
    ensures items == EncodeGroups(groups)
  {
    if items != [] {
      var front, item := items[..|items| - 1], items[|items| - 1];
      var before, g := ReadGroups(front).value, ReadGroup(item).value;
      GroupsReadAreEncoded(front, before);
      GroupReadIsEncoded(item, g);
      assert (before + [g])[..|before|] == before;
      assert items == front + [item];
    }
  }

  lemma ReadIsEncoded(raw: Raw, s: Snapshot)
    requires ReadSnapshot(raw) == Some(s)
    ensures raw == EncodeSnapshot(s)
  {
    GroupsReadAreEncoded(raw.groups.items, s.groups);
    StatusTextsDiffer();
  }

  /** The reader is the inverse of writing a sound snapshot: it accepts nothing else, and gives it back. */
  lemma ReaderIsInverse(raw: Raw, s: Snapshot)
    ensures ReadSnapshot(raw) == Some(s) <==> SnapshotOk(s) && raw == EncodeSnapshot(s)
  {
    EncodedSnapshotReads(s);
    if ReadSnapshot(raw) == Some(s) { ReadIsEncoded(raw, s); }
  }
}
