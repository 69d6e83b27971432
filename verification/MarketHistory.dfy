/** Point-in-time reads of market snapshots and index qualification
    (packages/db/src/analytics/index-engine.ts). Every read is fixed by what was
    observed up to the requested time. */
module MarketHistory {
  import opened Common

  const MS_DAY: int := 86_400_000
  const WINDOW_DAYS: int := 30
  const MODERN_SET_KEYS: seq<string> := ["sv1", "sv2", "svp", "twm"]

  datatype PrintingId = PrintingId(id: string)

  /** `Graded` also stands for any other text: only raw and psa10 filter prices. */
  datatype Grading = Raw | Graded | Psa10

  datatype Snapshot = Snapshot(
    printing: PrintingId, sold: bool, condition: string, observedAt: int, outlier: bool,
    company: Option<string>, grade: Option<string>, price: Option<real>, currency: string)

  datatype Printing = Printing(
    id: PrintingId, game: string, language: string, concept: string, variant: string, setKey: string)

  /** A membership rule with its defaults filled in. */
  datatype Rule = Rule(
    game: string, language: Option<string>, concept: Option<string>, setKey: Option<string>, era: Option<string>,
    variant: Option<string>, condition: string, graded: Grading, minSales: real, minHistory: real, mixed: bool)

  datatype Price = Price(amount: real, currency: string)

  /** What a price query asks for, apart from its time. */
  datatype Query = Query(printing: PrintingId, condition: string, graded: Grading)

  predicate Wanted(s: Snapshot, q: Query) {
    && s.printing == q.printing && s.sold && s.condition == q.condition && !s.outlier
    && (q.graded == Raw ==> s.company == None)
    && (q.graded == Psa10 ==> s.company == Some("psa") && s.grade == Some("10"))
  }

  predicate Eligible(s: Snapshot, q: Query, asOf: int) {
    s.observedAt <= asOf && Wanted(s, q)
  }

  /** The newest wanted snapshot at or before `asOf`; among equal times the first stored. */
  function Latest(snapshots: seq<Snapshot>, q: Query, asOf: int): Option<Snapshot> {
    if snapshots == [] then None
    else
      var was := Latest(snapshots[..|snapshots| - 1], q, asOf);
      var s := snapshots[|snapshots| - 1];
      if Eligible(s, q, asOf) && (was.None? || was.value.observedAt < s.observedAt) then Some(s) else was
  }

  function SoldPrice(snapshots: seq<Snapshot>, q: Query, asOf: int): Option<Price> {
    match Latest(snapshots, q, asOf)
    case None => None
    case Some(s) => if s.price.None? then None else Some(Price(s.price.value, s.currency))
  }

  /** The scan's result: no eligible snapshot is newer than the one it returns. */
  lemma {:induction false} LatestIsNewest(snapshots: seq<Snapshot>, q: Query, asOf: int)
    ensures var r := Latest(snapshots, q, asOf);
      && (r.Some? ==> r.value in snapshots && Eligible(r.value, q, asOf))
      && (forall s :: s in snapshots && Eligible(s, q, asOf) ==> r.Some? && s.observedAt <= r.value.observedAt)
  {
    if snapshots != [] {
      LatestIsNewest(snapshots[..|snapshots| - 1], q, asOf);
      assert snapshots == snapshots[..|snapshots| - 1] + [snapshots[|snapshots| - 1]];
    }
  }

  /** Ungraded sales in the half-open window (since, asOf]. */
  predicate Counts(s: Snapshot, id: PrintingId, condition: string, asOf: int) {
    s.printing == id && s.sold && s.condition == condition && s.observedAt <= asOf && s.company == None
  }

  function SalesCount(snapshots: seq<Snapshot>, id: PrintingId, condition: string, since: int, asOf: int): nat {
    if snapshots == [] then 0
    else
      var s := snapshots[|snapshots| - 1];
      SalesCount(snapshots[..|snapshots| - 1], id, condition, since, asOf)
      + if Counts(s, id, condition, asOf) && since < s.observedAt then 1 else 0
  }

  function HistoryCount(snapshots: seq<Snapshot>, id: PrintingId, condition: string, asOf: int): nat {
    if snapshots == [] then 0
    else
      HistoryCount(snapshots[..|snapshots| - 1], id, condition, asOf)
      + if Counts(snapshots[|snapshots| - 1], id, condition, asOf) then 1 else 0
  }

  predicate Admits(wanted: Option<string>, actual: string) {
    wanted.None? || wanted.value == "" || wanted.value == actual
  }

  predicate InScope(rule: Rule, p: Printing) {
    && p.game == rule.game
    && Admits(rule.language, p.language)
    && Admits(rule.concept, p.concept)
    && Admits(rule.setKey, p.setKey)
    && Admits(rule.variant, p.variant)
    && (rule.era == Some("modern") ==> p.setKey in MODERN_SET_KEYS)
  }

  predicate NamesLanguages(rule: Rule) {
    rule.mixed || (rule.language.Some? && rule.language.value != "")
  }

  datatype Candidate = Candidate(printing: PrintingId, sales: int)

  predicate InCandidates(cs: seq<Candidate>, id: PrintingId) {
    exists i :: 0 <= i < |cs| && cs[i].printing == id
  }

  function Judge(rule: Rule, p: Printing, snapshots: seq<Snapshot>, asOf: int): (r: Option<Candidate>)
    ensures r.Some? ==> r.value.printing == p.id
  {
    if !InScope(rule, p) then None
    else if rule.graded == Psa10 then
      if SoldPrice(snapshots, Query(p.id, rule.condition, Psa10), asOf).None? then None else Some(Candidate(p.id, 1))
    else
      var sales := SalesCount(snapshots, p.id, rule.condition, asOf - WINDOW_DAYS * MS_DAY, asOf);
      var history := HistoryCount(snapshots, p.id, rule.condition, asOf);
      if sales as real < rule.minSales || history as real < rule.minHistory then None else Some(Candidate(p.id, sales))
  }

  function Judged(rule: Rule, printings: seq<Printing>, snapshots: seq<Snapshot>, asOf: int): seq<Candidate> {
    if printings == [] then []
    else
      var c := Judge(rule, printings[|printings| - 1], snapshots, asOf);
      Judged(rule, printings[..|printings| - 1], snapshots, asOf) + if c.Some? then [c.value] else []
  }

  /** The members an index would have at `asOf`; none when the rule names no language. */
  function Qualified(rule: Rule, printings: seq<Printing>, snapshots: seq<Snapshot>, asOf: int): seq<Candidate> {
    if NamesLanguages(rule) then Judged(rule, printings, snapshots, asOf) else []
  }

  /** The windowed count is the history gained over the window: a sale at `asOf` counts,
      one exactly at the window's start does not. */
  lemma {:induction false} WindowIsHistoryGained(
      snapshots: seq<Snapshot>, id: PrintingId, condition: string, since: int, asOf: int)
    requires since <= asOf
    ensures SalesCount(snapshots, id, condition, since, asOf)
         == HistoryCount(snapshots, id, condition, asOf) - HistoryCount(snapshots, id, condition, since)
  {
    if snapshots != [] {
      WindowIsHistoryGained(snapshots[..|snapshots| - 1], id, condition, since, asOf);
    }
  }

  /** A printing in scope of a rule on ungraded prices qualifies exactly when its history gained
      enough sales over the last thirty days and holds enough of them in all. */
  lemma ThresholdsDecide(rule: Rule, p: Printing, snapshots: seq<Snapshot>, asOf: int)
    requires InScope(rule, p) && rule.graded != Psa10
    ensures Judge(rule, p, snapshots, asOf).Some? <==>
      var held := HistoryCount(snapshots, p.id, rule.condition, asOf);
      var before := HistoryCount(snapshots, p.id, rule.condition, asOf - WINDOW_DAYS * MS_DAY);
      (held - before) as real >= rule.minSales && held as real >= rule.minHistory
  {
    WindowIsHistoryGained(snapshots, p.id, rule.condition, asOf - WINDOW_DAYS * MS_DAY, asOf);
  }

  // ----- Later observations -----

  ghost predicate AllAfter(snapshots: seq<Snapshot>, t: int) {
    forall s :: s in snapshots ==> t < s.observedAt
  }

  lemma {:induction false} LatestIgnoresLater(snapshots: seq<Snapshot>, more: seq<Snapshot>, q: Query, asOf: int)
    requires AllAfter(more, asOf)
    ensures Latest(snapshots + more, q, asOf) == Latest(snapshots, q, asOf)
  {
    if more == [] {
      assert snapshots + more == snapshots;
    } else {
      assert (snapshots + more)[..|snapshots + more| - 1] == snapshots + more[..|more| - 1];
      assert more[|more| - 1] in more;
      LatestIgnoresLater(snapshots, more[..|more| - 1], q, asOf);
    }
  }

  /** A price read for a time is not changed by anything observed after it. */
  lemma PriceIgnoresLater(snapshots: seq<Snapshot>, more: seq<Snapshot>, q: Query, asOf: int)
    requires AllAfter(more, asOf)
    ensures SoldPrice(snapshots + more, q, asOf) == SoldPrice(snapshots, q, asOf)
  {
    LatestIgnoresLater(snapshots, more, q, asOf);
  }

  lemma {:induction false} CountsIgnoreLater(
      snapshots: seq<Snapshot>, more: seq<Snapshot>, id: PrintingId, condition: string, since: int, asOf: int)
    requires AllAfter(more, asOf)
    ensures SalesCount(snapshots + more, id, condition, since, asOf)
      == SalesCount(snapshots, id, condition, since, asOf)
    ensures HistoryCount(snapshots + more, id, condition, asOf) == HistoryCount(snapshots, id, condition, asOf)
  {
    if more == [] {
      assert snapshots + more == snapshots;
    } else {
      assert (snapshots + more)[..|snapshots + more| - 1] == snapshots + more[..|more| - 1];
      assert more[|more| - 1] in more;
      CountsIgnoreLater(snapshots, more[..|more| - 1], id, condition, since, asOf);
    }
  }

  lemma JudgeIgnoresLater(rule: Rule, p: Printing, snapshots: seq<Snapshot>, more: seq<Snapshot>, asOf: int)
    requires AllAfter(more, asOf)
    ensures Judge(rule, p, snapshots + more, asOf) == Judge(rule, p, snapshots, asOf)
  {
    PriceIgnoresLater(snapshots, more, Query(p.id, rule.condition, Psa10), asOf);
    CountsIgnoreLater(snapshots, more, p.id, rule.condition, asOf - WINDOW_DAYS * MS_DAY, asOf);
  }

  lemma {:induction false} JudgedIgnoresLater(
      rule: Rule, printings: seq<Printing>, snapshots: seq<Snapshot>, more: seq<Snapshot>, asOf: int)
    requires AllAfter(more, asOf)
    ensures Judged(rule, printings, snapshots + more, asOf) == Judged(rule, printings, snapshots, asOf)
  {
    if printings != [] {
      JudgedIgnoresLater(rule, printings[..|printings| - 1], snapshots, more, asOf);
      JudgeIgnoresLater(rule, printings[|printings| - 1], snapshots, more, asOf);
    }
  }

  /** Qualification never looks past its own date: no look-ahead bias. */
  lemma QualificationIgnoresLater(
      rule: Rule, printings: seq<Printing>, snapshots: seq<Snapshot>, more: seq<Snapshot>, asOf: int)
    requires AllAfter(more, asOf)
    ensures Qualified(rule, printings, snapshots + more, asOf) == Qualified(rule, printings, snapshots, asOf)
  {
    JudgedIgnoresLater(rule, printings, snapshots, more, asOf);
  }

  // ----- What qualification returns -----

  predicate DistinctPrintings(printings: seq<Printing>) {
    forall i, j :: 0 <= i < j < |printings| ==> printings[i].id != printings[j].id
  }

  predicate DistinctCandidates(cs: seq<Candidate>) {
    forall i, j :: 0 <= i < j < |cs| ==> cs[i].printing != cs[j].printing
  }

  predicate NoNegativeSales(cs: seq<Candidate>) {
    forall i :: 0 <= i < |cs| ==> cs[i].sales >= 0
  }

  lemma {:induction false} JudgedAreListed(rule: Rule, printings: seq<Printing>, snapshots: seq<Snapshot>, asOf: int)
    ensures NoNegativeSales(Judged(rule, printings, snapshots, asOf))
    ensures forall i :: 0 <= i < |Judged(rule, printings, snapshots, asOf)| ==>
      exists k :: 0 <= k < |printings| && printings[k].id == Judged(rule, printings, snapshots, asOf)[i].printing
  {
    if printings != [] {
      var front := printings[..|printings| - 1];
      JudgedAreListed(rule, front, snapshots, asOf);
      var cs := Judged(rule, printings, snapshots, asOf);
      forall i | 0 <= i < |cs| ensures exists k :: 0 <= k < |printings| && printings[k].id == cs[i].printing {
        if i < |Judged(rule, front, snapshots, asOf)| {
          var k :| 0 <= k < |front| && front[k].id == Judged(rule, front, snapshots, asOf)[i].printing;
          assert printings[k].id == cs[i].printing;
        } else {
          assert printings[|printings| - 1].id == cs[i].printing;
        }
      }
    }
  }

  /** Each printing qualifies at most once, with a non-negative count of sales. */
  lemma {:induction false} QualifiedOnce(rule: Rule, printings: seq<Printing>, snapshots: seq<Snapshot>, asOf: int)
    requires DistinctPrintings(printings)
    ensures DistinctCandidates(Judged(rule, printings, snapshots, asOf))
    ensures NoNegativeSales(Judged(rule, printings, snapshots, asOf))
  {
    if printings != [] {
      var front := printings[..|printings| - 1];
      QualifiedOnce(rule, front, snapshots, asOf);
      JudgedAreListed(rule, front, snapshots, asOf);
    }
  }

  // ----- Earlier and equal observations -----

  lemma CandidateAppend(cs: seq<Candidate>, c: Candidate, id: PrintingId)
    ensures InCandidates(cs + [c], id) <==> InCandidates(cs, id) || c.printing == id
  {
    var r := cs + [c];
    if InCandidates(cs, id) {
      var k :| 0 <= k < |cs| && cs[k].printing == id;
      assert r[k].printing == id;
    }
    assert r[|cs|] == c;
  }

  lemma {:induction false} JudgedAppends(
      rule: Rule, printings: seq<Printing>, snapshots: seq<Snapshot>, asOf: int, id: PrintingId)
    requires printings != []
    ensures var p := printings[|printings| - 1];
      InCandidates(Judged(rule, printings, snapshots, asOf), id) <==>
        InCandidates(Judged(rule, printings[..|printings| - 1], snapshots, asOf), id)
        || (p.id == id && Judge(rule, p, snapshots, asOf).Some?)
  {
    var before := Judged(rule, printings[..|printings| - 1], snapshots, asOf);
    var c := Judge(rule, printings[|printings| - 1], snapshots, asOf);
    if c.Some? {
      CandidateAppend(before, c.value, id);
    } else {
      assert before + [] == before;
    }
  }

  lemma {:induction false} CountsAppend(
      snapshots: seq<Snapshot>, s: Snapshot, id: PrintingId, condition: string, since: int, asOf: int)
    ensures SalesCount(snapshots + [s], id, condition, since, asOf)
      == SalesCount(snapshots, id, condition, since, asOf)
       + if Counts(s, id, condition, asOf) && since < s.observedAt then 1 else 0
    ensures HistoryCount(snapshots + [s], id, condition, asOf)
      == HistoryCount(snapshots, id, condition, asOf) + if Counts(s, id, condition, asOf) then 1 else 0
  {
    assert (snapshots + [s])[..|snapshots|] == snapshots;
  }

  lemma JudgedStays(rule: Rule, p: Printing, snapshots: seq<Snapshot>, s: Snapshot, asOf: int)
    requires rule.graded != Psa10 && Judge(rule, p, snapshots, asOf).Some?
    ensures Judge(rule, p, snapshots + [s], asOf).Some?
  {
    CountsAppend(snapshots, s, p.id, rule.condition, asOf - WINDOW_DAYS * MS_DAY, asOf);
  }

  lemma {:induction false} JudgedGrows(
      rule: Rule, printings: seq<Printing>, snapshots: seq<Snapshot>, s: Snapshot, asOf: int, id: PrintingId)
    requires rule.graded != Psa10 && InCandidates(Judged(rule, printings, snapshots, asOf), id)
    ensures InCandidates(Judged(rule, printings, snapshots + [s], asOf), id)
  {
    if printings != [] {
      var front, p := printings[..|printings| - 1], printings[|printings| - 1];
      JudgedAppends(rule, printings, snapshots, asOf, id);
      JudgedAppends(rule, printings, snapshots + [s], asOf, id);
      if InCandidates(Judged(rule, front, snapshots, asOf), id) {
        JudgedGrows(rule, front, snapshots, s, asOf, id);
      } else {
        JudgedStays(rule, p, snapshots, s, asOf);
      }
    }
  }

  /** Snapshots are never changed or removed, so a printing that qualifies at a date under a rule
      on ungraded prices keeps qualifying at that date, whatever is observed later and for whatever time. */
  lemma QualificationGrows(
      rule: Rule, printings: seq<Printing>, snapshots: seq<Snapshot>, s: Snapshot, asOf: int, id: PrintingId)
    requires rule.graded != Psa10 && InCandidates(Qualified(rule, printings, snapshots, asOf), id)
    ensures InCandidates(Qualified(rule, printings, snapshots + [s], asOf), id)
  {
    JudgedGrows(rule, printings, snapshots, s, asOf, id);
  }
}
