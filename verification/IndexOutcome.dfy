/** What an index qualifies, weighs and returns as its level (packages/db/src/analytics/index-engine.ts),
    stated on the fields of printings, snapshots and membership rows alone. */
module IndexOutcome {
  import opened Common
  import opened MarketHistory
  import opened IndexMembership
  import opened IndexLevel
  import opened IndexEngine

  // ----- Prices -----

  /** The positions of the sold snapshots that a price query reads. */
  ghost function Priceable(snapshots: seq<Snapshot>, q: Query, asOf: int): set<nat> {
    set i: nat |
      && i < |snapshots| && snapshots[i].printing == q.printing && snapshots[i].sold && !snapshots[i].outlier
      && snapshots[i].condition == q.condition && snapshots[i].observedAt <= asOf
      && (q.graded == Raw ==> snapshots[i].company.None?)
      && (q.graded == Psa10 ==> snapshots[i].company == Some("psa") && snapshots[i].grade == Some("10"))
  }

  /** The newest of some positions; among equal times the one stored first. */
  ghost predicate Newest(snapshots: seq<Snapshot>, sales: set<nat>, i: nat) {
    && i in sales && i < |snapshots|
    && forall j :: j in sales && j < |snapshots| ==>
         snapshots[j].observedAt < snapshots[i].observedAt
         || (snapshots[j].observedAt == snapshots[i].observedAt && i <= j)
  }

  lemma PriceableAppends(snapshots: seq<Snapshot>, s: Snapshot, q: Query, asOf: int)
    ensures Priceable(snapshots + [s], q, asOf)
      == Priceable(snapshots, q, asOf) + if Eligible(s, q, asOf) then {|snapshots|} else {}
  {
    var all := snapshots + [s];
    assert all[|snapshots|] == s && forall i :: 0 <= i < |snapshots| ==> all[i] == snapshots[i];
  }

  lemma NewestAppends(snapshots: seq<Snapshot>, s: Snapshot, sales: set<nat>, i: nat)
    requires (forall j :: j in sales ==> j < |snapshots|) && i < |snapshots|
    ensures Newest(snapshots + [s], sales, i) <==> Newest(snapshots, sales, i)
    ensures Newest(snapshots + [s], sales + {|snapshots|}, i)
      <==> Newest(snapshots, sales, i) && s.observedAt <= snapshots[i].observedAt
    ensures Newest(snapshots + [s], sales + {|snapshots|}, |snapshots|)
      <==> forall j :: j in sales ==> snapshots[j].observedAt < s.observedAt
  {
    var all := snapshots + [s];
    assert all[|snapshots|] == s && forall j :: 0 <= j < |snapshots| ==> all[j] == snapshots[j];
  }

  /** The scan returns the snapshot at the newest position, none when there is no position. */
  lemma {:induction false} LatestAtNewest(snapshots: seq<Snapshot>, q: Query, asOf: int) returns (at: nat)
    ensures Latest(snapshots, q, asOf).None? <==> Priceable(snapshots, q, asOf) == {}
    ensures Latest(snapshots, q, asOf).Some? ==>
      Newest(snapshots, Priceable(snapshots, q, asOf), at) && snapshots[at] == Latest(snapshots, q, asOf).value
  {
    at := 0;
    if snapshots != [] {
      var front, s := snapshots[..|snapshots| - 1], snapshots[|snapshots| - 1];
      assert snapshots == front + [s];
      at := LatestAtNewest(front, q, asOf);
      PriceableAppends(front, s, q, asOf);
      var sales, was := Priceable(front, q, asOf), Latest(front, q, asOf);
      if was.Some? { NewestAppends(front, s, sales, at); }
      if Eligible(s, q, asOf) && (was.None? || was.value.observedAt < s.observedAt) {
        at := |front|;
      }
    }
  }

  lemma NewestIsOne(snapshots: seq<Snapshot>, sales: set<nat>, i: nat, j: nat)
    requires Newest(snapshots, sales, i) && Newest(snapshots, sales, j)
    ensures i == j
  {
  }

  ghost predicate PricedAt(snapshots: seq<Snapshot>, q: Query, asOf: int, amount: real, currency: string) {
    exists i: nat :: Newest(snapshots, Priceable(snapshots, q, asOf), i)
      && snapshots[i].price == Some(amount) && snapshots[i].currency == currency
  }

  /** A price is read exactly when the newest sale of the query has one, and it is that one. */
  lemma PriceIsNewest(snapshots: seq<Snapshot>, q: Query, asOf: int, amount: real, currency: string)
    ensures SoldPrice(snapshots, q, asOf) == Some(Price(amount, currency))
      <==> PricedAt(snapshots, q, asOf, amount, currency)
  {
    var at := LatestAtNewest(snapshots, q, asOf);
    var sales := Priceable(snapshots, q, asOf);
    forall i: nat | Newest(snapshots, sales, i) ensures i == at {
      NewestIsOne(snapshots, sales, i, at);
    }
  }

  // ----- Sales -----

  /** The positions of the ungraded sales of a printing up to a time. */
  ghost function Sold(snapshots: seq<Snapshot>, id: PrintingId, condition: string, asOf: int): set<nat> {
    set i: nat |
      && i < |snapshots| && snapshots[i].printing == id && snapshots[i].sold && snapshots[i].company.None?
      && snapshots[i].condition == condition && snapshots[i].observedAt <= asOf
  }

  /** Those of them in the last thirty days. */
  ghost function SoldLately(snapshots: seq<Snapshot>, id: PrintingId, condition: string, asOf: int): set<nat> {
    set i: nat |
      i in Sold(snapshots, id, condition, asOf) && i < |snapshots|
      && asOf - snapshots[i].observedAt < 30 * 24 * 60 * 60 * 1000
  }

  lemma SoldAppends(snapshots: seq<Snapshot>, s: Snapshot, id: PrintingId, condition: string, asOf: int)
    ensures Sold(snapshots + [s], id, condition, asOf)
      == Sold(snapshots, id, condition, asOf) + if Counts(s, id, condition, asOf) then {|snapshots|} else {}
    ensures SoldLately(snapshots + [s], id, condition, asOf)
      == SoldLately(snapshots, id, condition, asOf)
       + if Counts(s, id, condition, asOf) && asOf - WINDOW_DAYS * MS_DAY < s.observedAt then {|snapshots|} else {}
  {
    var all := snapshots + [s];
    assert all[|snapshots|] == s && forall i :: 0 <= i < |snapshots| ==> all[i] == snapshots[i];
  }

  /** The two counts are numbers of positions. */
  lemma {:induction false} CountsArePositions(snapshots: seq<Snapshot>, id: PrintingId, condition: string, asOf: int)
    ensures HistoryCount(snapshots, id, condition, asOf) == |Sold(snapshots, id, condition, asOf)|
    ensures SalesCount(snapshots, id, condition, asOf - WINDOW_DAYS * MS_DAY, asOf)
      == |SoldLately(snapshots, id, condition, asOf)|
  {
    if snapshots == [] {
      assert Sold(snapshots, id, condition, asOf) == {} == SoldLately(snapshots, id, condition, asOf);
    } else {
      var front, s := snapshots[..|snapshots| - 1], snapshots[|snapshots| - 1];
      assert snapshots == front + [s];
      CountsArePositions(front, id, condition, asOf);
      SoldAppends(front, s, id, condition, asOf);
    }
  }

  // ----- Who qualifies -----

  /** A printing is what the rule asks for: of its game, of every language, concept, set and variant it
      names, and of a modern set when the era is modern. */
  ghost predicate AskedFor(rule: Rule, p: Printing) {
    && p.game == rule.game
    && rule.language in {None, Some(""), Some(p.language)}
    && rule.concept in {None, Some(""), Some(p.concept)}
    && rule.setKey in {None, Some(""), Some(p.setKey)}
    && rule.variant in {None, Some(""), Some(p.variant)}
    && (rule.era != Some("modern") || p.setKey in {"sv1", "sv2", "svp", "twm"})
  }

  /** It has a psa10 price, or else enough sales lately and in all. */
  ghost predicate Traded(rule: Rule, id: PrintingId, snapshots: seq<Snapshot>, asOf: int) {
    if rule.graded == Psa10 then
      exists amount: real, currency: string ::
        PricedAt(snapshots, Query(id, rule.condition, Psa10), asOf, amount, currency)
    else
      && |SoldLately(snapshots, id, rule.condition, asOf)| as real >= rule.minSales
      && |Sold(snapshots, id, rule.condition, asOf)| as real >= rule.minHistory
  }

  lemma ModernSets(key: string)
    ensures key in MODERN_SET_KEYS <==> key in {"sv1", "sv2", "svp", "twm"}
  {
    var keys := MODERN_SET_KEYS;
    assert keys[0] == "sv1" && keys[1] == "sv2" && keys[2] == "svp" && keys[3] == "twm";
  }

  lemma AdmitsMeans(wanted: Option<string>, actual: string)
    ensures Admits(wanted, actual) <==> wanted in {None, Some(""), Some(actual)}
  {
    if wanted.Some? && wanted.value == "" { assert wanted == Some(""); }
    if wanted.Some? && wanted.value == actual { assert wanted == Some(actual); }
  }

  lemma ScopeIsAsked(rule: Rule, p: Printing)
    ensures InScope(rule, p) <==> AskedFor(rule, p)
  {
    AdmitsMeans(rule.language, p.language);
    AdmitsMeans(rule.concept, p.concept);
    AdmitsMeans(rule.setKey, p.setKey);
    AdmitsMeans(rule.variant, p.variant);
    ModernSets(p.setKey);
  }

  lemma JudgedByTrade(rule: Rule, p: Printing, snapshots: seq<Snapshot>, asOf: int)
    ensures Judge(rule, p, snapshots, asOf).Some? <==> AskedFor(rule, p) && Traded(rule, p.id, snapshots, asOf)
    ensures Judge(rule, p, snapshots, asOf).Some? ==>
      Judge(rule, p, snapshots, asOf).value.sales
      == if rule.graded == Psa10 then 1 else |SoldLately(snapshots, p.id, rule.condition, asOf)|
  {
    ScopeIsAsked(rule, p);
    CountsArePositions(snapshots, p.id, rule.condition, asOf);
    if rule.graded == Psa10 {
      var q := Query(p.id, rule.condition, Psa10);
      var price := SoldPrice(snapshots, q, asOf);
      if price.Some? { PriceIsNewest(snapshots, q, asOf, price.value.amount, price.value.currency); }
      if amount: real, currency: string :| PricedAt(snapshots, q, asOf, amount, currency) {
        PriceIsNewest(snapshots, q, asOf, amount, currency);
      }
    }
  }

  ghost predicate Listed(rule: Rule, printings: seq<Printing>, id: PrintingId) {
    exists k :: 0 <= k < |printings| && printings[k].id == id && AskedFor(rule, printings[k])
  }

  lemma {:induction false} JudgedExactly(
      rule: Rule, printings: seq<Printing>, snapshots: seq<Snapshot>, asOf: int, id: PrintingId)
    ensures InCandidates(Judged(rule, printings, snapshots, asOf), id)
      <==> Listed(rule, printings, id) && Traded(rule, id, snapshots, asOf)
  {
    if printings != [] {
      var front, p := printings[..|printings| - 1], printings[|printings| - 1];
      JudgedExactly(rule, front, snapshots, asOf, id);
      JudgedAppends(rule, printings, snapshots, asOf, id);
      JudgedByTrade(rule, p, snapshots, asOf);
      assert forall k :: 0 <= k < |front| ==> front[k] == printings[k];
    }
  }

  /** Who qualifies: when the rule mixes languages or names one, exactly the listed printings it asks
      for that have a psa10 price or enough sales; otherwise nobody. */
  lemma QualifiedExactly(rule: Rule, printings: seq<Printing>, snapshots: seq<Snapshot>, asOf: int, id: PrintingId)
    ensures InCandidates(Qualified(rule, printings, snapshots, asOf), id) <==>
      && (rule.mixed || rule.language !in {None, Some("")})
      && Listed(rule, printings, id) && Traded(rule, id, snapshots, asOf)
  {
    JudgedExactly(rule, printings, snapshots, asOf, id);
  }

  lemma {:induction false} JudgedSales(
      rule: Rule, printings: seq<Printing>, snapshots: seq<Snapshot>, asOf: int, c: Candidate)
    requires c in Judged(rule, printings, snapshots, asOf)
    ensures c.sales
      == if rule.graded == Psa10 then 1 else |SoldLately(snapshots, c.printing, rule.condition, asOf)|
  {
    if printings != [] {
      if c in Judged(rule, printings[..|printings| - 1], snapshots, asOf) {
        JudgedSales(rule, printings[..|printings| - 1], snapshots, asOf, c);
      } else {
        JudgedByTrade(rule, printings[|printings| - 1], snapshots, asOf);
      }
    }
  }

  /** With how many sales: those of the last thirty days, and 1 under a psa10 rule. */
  lemma QualifiedSales(rule: Rule, printings: seq<Printing>, snapshots: seq<Snapshot>, asOf: int, c: Candidate)
    requires c in Qualified(rule, printings, snapshots, asOf)
    ensures c.sales
      == if rule.graded == Psa10 then 1 else |SoldLately(snapshots, c.printing, rule.condition, asOf)|
  {
    JudgedSales(rule, printings, snapshots, asOf, c);
  }

  // ----- Weights -----

  lemma {:induction false} TotalIsPositive(cs: seq<Candidate>)
    ensures TotalSales(cs) >= 0
    ensures TotalSales(cs) > 0 <==> exists k :: 0 <= k < |cs| && cs[k].sales > 0
  {
    if cs != [] {
      var front := cs[..|cs| - 1];
      TotalIsPositive(front);
      assert forall k :: 0 <= k < |front| ==> front[k] == cs[k];
      if k :| 0 <= k < |front| && front[k].sales > 0 { assert cs[k].sales > 0; }
    }
  }

  lemma SharesProportional(x: int, y: int, total: int)
    requires total > 0
    ensures (x as real / total as real) * y as real == (y as real / total as real) * x as real
  {
    var a, b, t := x as real, y as real, total as real;
    assert a / t * b == a * b / t == b / t * a;
  }

  /** Any two members weigh in proportion to their sales when the method goes by sales and some were
      made; otherwise they weigh the same. `WeightsSumToOne` fixes the scale. */
  lemma WeightsGoBySales(cs: seq<Candidate>, weighting: Weighting, i: nat, j: nat)
    requires DistinctCandidates(cs) && i < |cs| && j < |cs|
    ensures var w := Weights(cs, weighting);
      var a, b := WeightOf(w, cs[i].printing), WeightOf(w, cs[j].printing);
      if weighting == Liquidity && exists k :: 0 <= k < |cs| && cs[k].sales > 0 then
        a * cs[j].sales as real == b * cs[i].sales as real
      else a == b
  {
    WeightIsShare(cs, weighting, |cs|, i);
    WeightIsShare(cs, weighting, |cs|, j);
    TotalIsPositive(cs);
    if TotalSales(cs) > 0 { SharesProportional(cs[i].sales, cs[j].sales, TotalSales(cs)); }
  }

  // ----- The level balances its members -----

  /** How far the relatives pull a level `v` up or down, each by its weight. */
  ghost function Pull(ps: seq<Priced>, v: real): real {
    if ps == [] then 0.0 else Pull(ps[..|ps| - 1], v) + ps[|ps| - 1].weight * (100.0 * ps[|ps| - 1].rel - v)
  }

  lemma PullStep(sum: real, total: real, w: real, rel: real, v: real)
    ensures (100.0 * sum - v * total) + w * (100.0 * rel - v) == 100.0 * (sum + w * rel) - v * (total + w)
  {
  }

  lemma {:induction false} PullIsDifference(ps: seq<Priced>, v: real)
    ensures Pull(ps, v) == 100.0 * WeightedSum(ps) - v * WeightSum(ps)
  {
    if ps != [] {
      var front, p := ps[..|ps| - 1], ps[|ps| - 1];
      PullIsDifference(front, v);
      PullStep(WeightedSum(front), WeightSum(front), p.weight, p.rel, v);
    }
  }

  lemma QuotientBalances(sum: real, total: real)
    requires total != 0.0
    ensures 100.0 * sum - 100.0 * (sum / total) * total == 0.0
  {
    assert sum / total * total == sum;
  }

  lemma {:induction false} SomeWeightCounts(ps: seq<Priced>)
    requires NonNegative(ps)
    ensures WeightSum(ps) >= 0.0
    ensures WeightSum(ps) > 0.0 <==> SomeWeight(ps)
  {
    if ps != [] {
      var front, p := ps[..|ps| - 1], ps[|ps| - 1];
      SomeWeightCounts(front);
      PullAppends(front, p, 0.0);
      assert ps == front + [p];
    }
  }

  /** The value is the one at which the relatives balance, their weighted mean; 100 when the weights
      add up to nothing. */
  lemma {:induction false} ValueBalances(ps: seq<Priced>)
    ensures WeightSum(ps) > 0.0 ==> Pull(ps, Value(ps)) == 0.0
    ensures WeightSum(ps) <= 0.0 ==> Value(ps) == 100.0
  {
    if WeightSum(ps) > 0.0 {
      PullIsDifference(ps, Value(ps));
      QuotientBalances(WeightedSum(ps), WeightSum(ps));
    }
  }

  // ----- The level of the stored rows -----

  ghost predicate Current(m: Member, t: int) {
    m.since <= t && (m.to.None? || t < m.to.value)
  }

  /** A current row with a positive price at its start and a price now, in one currency. */
  ghost predicate Counted(rule: Rule, snapshots: seq<Snapshot>, m: Member, t: int) {
    var q := Query(m.printing, rule.condition, rule.graded);
    var base, now := SoldPrice(snapshots, q, m.since), SoldPrice(snapshots, q, t);
    && Current(m, t) && base.Some? && now.Some?
    && base.value.amount > 0.0 && base.value.currency == now.value.currency
  }

  /** How far a row pulls a level `v`: its weight times 100 times the change of its price, less `v`. */
  ghost function RowPull(rule: Rule, snapshots: seq<Snapshot>, m: Member, t: int, v: real): real {
    if Counted(rule, snapshots, m, t) then
      var q := Query(m.printing, rule.condition, rule.graded);
      var base, now := SoldPrice(snapshots, q, m.since).value.amount, SoldPrice(snapshots, q, t).value.amount;
      m.weight * (100.0 * (now / base) - v)
    else 0.0
  }

  ghost function RowsPull(rule: Rule, snapshots: seq<Snapshot>, rows: seq<Member>, t: int, v: real): real {
    if rows == [] then 0.0
    else
      RowsPull(rule, snapshots, rows[..|rows| - 1], t, v) + RowPull(rule, snapshots, rows[|rows| - 1], t, v)
  }

  ghost function CurrentRows(rows: seq<Member>, t: int): set<nat> {
    set i: nat | i < |rows| && Current(rows[i], t)
  }

  ghost function CountedRows(rule: Rule, snapshots: seq<Snapshot>, rows: seq<Member>, t: int): set<nat> {
    set i: nat | i < |rows| && Counted(rule, snapshots, rows[i], t)
  }

  lemma CurrentAppend(rows: seq<Member>, m: Member, t: int)
    ensures CurrentRows(rows + [m], t) == CurrentRows(rows, t) + if Current(m, t) then {|rows|} else {}
  {
    var all := rows + [m];
    assert all[|rows|] == m && forall i :: 0 <= i < |rows| ==> all[i] == rows[i];
  }

  lemma CountedAppend(rule: Rule, snapshots: seq<Snapshot>, rows: seq<Member>, m: Member, t: int)
    ensures CountedRows(rule, snapshots, rows + [m], t)
      == CountedRows(rule, snapshots, rows, t) + if Counted(rule, snapshots, m, t) then {|rows|} else {}
  {
    var all := rows + [m];
    assert all[|rows|] == m && forall i :: 0 <= i < |rows| ==> all[i] == rows[i];
  }

  lemma {:induction false} ListedAreCurrent(rows: seq<Member>, t: int)
    ensures |ListAsOf(rows, t)| == |CurrentRows(rows, t)|
  {
    if rows == [] {
      assert CurrentRows(rows, t) == {};
    } else {
      var front, m := rows[..|rows| - 1], rows[|rows| - 1];
      ListedAreCurrent(front, t);
      CurrentAppend(front, m, t);
      assert rows == front + [m];
    }
  }

  ghost predicate SomeWeight(ps: seq<Priced>) {
    exists k :: 0 <= k < |ps| && ps[k].weight > 0.0
  }

  /** Some row that counts has a weight. */
  ghost predicate SomeRowWeighs(rule: Rule, snapshots: seq<Snapshot>, rows: seq<Member>, t: int) {
    exists i :: 0 <= i < |rows| && Counted(rule, snapshots, rows[i], t) && rows[i].weight > 0.0
  }

  /** Priced members stand for the rows that count. */
  ghost predicate Stands(rule: Rule, snapshots: seq<Snapshot>, rows: seq<Member>, ps: seq<Priced>, t: int, v: real)
  {
    && |ps| == |CountedRows(rule, snapshots, rows, t)|
    && Pull(ps, v) == RowsPull(rule, snapshots, rows, t, v)
    && (SomeWeight(ps) <==> SomeRowWeighs(rule, snapshots, rows, t))
  }

  lemma {:induction false} PullAppends(ps: seq<Priced>, p: Priced, v: real)
    ensures Pull(ps + [p], v) == Pull(ps, v) + p.weight * (100.0 * p.rel - v)
    ensures SomeWeight(ps + [p]) <==> SomeWeight(ps) || p.weight > 0.0
  {
    var all := ps + [p];
    assert all[..|ps|] == ps && all[|ps|] == p && forall k :: 0 <= k < |ps| ==> all[k] == ps[k];
    if SomeWeight(ps) {
      var k :| 0 <= k < |ps| && ps[k].weight > 0.0;
      assert all[k].weight > 0.0;
    }
  }

  lemma {:induction false} RowsPullAppends(
      rule: Rule, snapshots: seq<Snapshot>, rows: seq<Member>, m: Member, t: int, v: real)
    ensures RowsPull(rule, snapshots, rows + [m], t, v)
      == RowsPull(rule, snapshots, rows, t, v) + RowPull(rule, snapshots, m, t, v)
    ensures SomeRowWeighs(rule, snapshots, rows + [m], t)
      <==> SomeRowWeighs(rule, snapshots, rows, t) || (Counted(rule, snapshots, m, t) && m.weight > 0.0)
  {
    var all := rows + [m];
    assert all[..|rows|] == rows && all[|rows|] == m && forall i :: 0 <= i < |rows| ==> all[i] == rows[i];
    if SomeRowWeighs(rule, snapshots, rows, t) {
      var i :| 0 <= i < |rows| && Counted(rule, snapshots, rows[i], t) && rows[i].weight > 0.0;
      assert Counted(rule, snapshots, all[i], t) && all[i].weight > 0.0;
    }
  }

  lemma CountsOneMore(rule: Rule, snapshots: seq<Snapshot>, rows: seq<Member>, m: Member, t: int)
    requires Counted(rule, snapshots, m, t)
    ensures |CountedRows(rule, snapshots, rows + [m], t)| == |CountedRows(rule, snapshots, rows, t)| + 1
  {
    CountedAppend(rule, snapshots, rows, m, t);
    assert |rows| !in CountedRows(rule, snapshots, rows, t);
  }

  lemma {:induction false} PullsOneMore(
      rule: Rule, snapshots: seq<Snapshot>, rows: seq<Member>, m: Member, ps: seq<Priced>, p: Priced, t: int, v: real)
    requires Pull(ps, v) == RowsPull(rule, snapshots, rows, t, v)
    requires p.weight * (100.0 * p.rel - v) == RowPull(rule, snapshots, m, t, v)
    ensures Pull(ps + [p], v) == RowsPull(rule, snapshots, rows + [m], t, v)
  {
    PullAppends(ps, p, v);
    RowsPullAppends(rule, snapshots, rows, m, t, v);
  }

  lemma WeighsOneMore(
      rule: Rule, snapshots: seq<Snapshot>, rows: seq<Member>, m: Member, ps: seq<Priced>, p: Priced, t: int)
    requires SomeWeight(ps) <==> SomeRowWeighs(rule, snapshots, rows, t)
    requires Counted(rule, snapshots, m, t) && p.weight == m.weight
    ensures SomeWeight(ps + [p]) <==> SomeRowWeighs(rule, snapshots, rows + [m], t)
  {
    PullAppends(ps, p, 0.0);
    RowsPullAppends(rule, snapshots, rows, m, t, 0.0);
  }

  lemma StandsForOneMore(
      rule: Rule, snapshots: seq<Snapshot>, rows: seq<Member>, m: Member, ps: seq<Priced>, p: Priced, t: int, v: real)
    requires Stands(rule, snapshots, rows, ps, t, v) && Counted(rule, snapshots, m, t) && p.weight == m.weight
    requires p.weight * (100.0 * p.rel - v) == RowPull(rule, snapshots, m, t, v)
    ensures Stands(rule, snapshots, rows + [m], ps + [p], t, v)
  {
    CountsOneMore(rule, snapshots, rows, m, t);
    PullsOneMore(rule, snapshots, rows, m, ps, p, t, v);
    WeighsOneMore(rule, snapshots, rows, m, ps, p, t);
  }

  lemma StandsForNoMore(
      rule: Rule, snapshots: seq<Snapshot>, rows: seq<Member>, m: Member, ps: seq<Priced>, t: int, v: real)
    requires Stands(rule, snapshots, rows, ps, t, v) && !Counted(rule, snapshots, m, t)
    ensures Stands(rule, snapshots, rows + [m], ps, t, v)
  {
    RowsPullAppends(rule, snapshots, rows, m, t, v);
    CountedAppend(rule, snapshots, rows, m, t);
  }

  lemma RelativeOfRow(rule: Rule, snapshots: seq<Snapshot>, m: Member, inception: int, t: int, v: real)
    requires ActiveAt(m, t) && inception <= m.since
    ensures var rel := RelativeOf(rule, snapshots, Stint(m.printing, m.since, m.weight), inception, t);
      && (rel.Some? <==> Counted(rule, snapshots, m, t))
      && (rel.Some? ==> m.weight * (100.0 * rel.value - v) == RowPull(rule, snapshots, m, t, v))
  {
  }

  lemma {:induction false} PricedAppend(
      rule: Rule, snapshots: seq<Snapshot>, stints: seq<Stint>, s: Stint, inception: int, t: int)
    ensures var rel := RelativeOf(rule, snapshots, s, inception, t);
      PricedOf(rule, snapshots, stints + [s], inception, t)
      == PricedOf(rule, snapshots, stints, inception, t) + if rel.Some? then [Priced(s.weight, rel.value)] else []
  {
    assert (stints + [s])[..|stints|] == stints;
  }

  lemma {:induction false} CurrentRowStands(
      rule: Rule, snapshots: seq<Snapshot>, rows: seq<Member>, m: Member, stints: seq<Stint>, inception: int, t: int,
      v: real)
    requires ActiveAt(m, t) && inception <= m.since
    requires Stands(rule, snapshots, rows, PricedOf(rule, snapshots, stints, inception, t), t, v)
    ensures Stands(
      rule, snapshots, rows + [m],
      PricedOf(rule, snapshots, stints + [Stint(m.printing, m.since, m.weight)], inception, t), t, v)
  {
    var s, ps := Stint(m.printing, m.since, m.weight), PricedOf(rule, snapshots, stints, inception, t);
    PricedAppend(rule, snapshots, stints, s, inception, t);
    RelativeOfRow(rule, snapshots, m, inception, t, v);
    var rel := RelativeOf(rule, snapshots, s, inception, t);
    if rel.Some? {
      StandsForOneMore(rule, snapshots, rows, m, ps, Priced(m.weight, rel.value), t, v);
    } else {
      StandsForNoMore(rule, snapshots, rows, m, ps, t, v);
      assert ps + [] == ps;
    }
  }

  ghost predicate StartsFrom(stints: seq<Stint>, inception: int) {
    forall i :: 0 <= i < |stints| ==> inception <= stints[i].since
  }

  lemma StartsFromFront(stints: seq<Stint>, more: seq<Stint>, inception: int)
    requires StartsFrom(stints + more, inception)
    ensures StartsFrom(stints, inception) && (more != [] ==> inception <= more[0].since)
  {
    var all := stints + more;
    assert forall i :: 0 <= i < |stints| ==> all[i] == stints[i];
    if more != [] { assert all[|stints|] == more[0]; }
  }

  lemma {:induction false} PricedStand(
      rule: Rule, snapshots: seq<Snapshot>, rows: seq<Member>, inception: int, t: int, v: real)
    requires StartsFrom(ListAsOf(rows, t), inception)
    ensures Stands(rule, snapshots, rows, PricedOf(rule, snapshots, ListAsOf(rows, t), inception, t), t, v)
  {
    if rows == [] {
      assert CountedRows(rule, snapshots, rows, t) == {};
    } else {
      var front, m := rows[..|rows| - 1], rows[|rows| - 1];
      var was := ListAsOf(front, t);
      assert rows == front + [m];
      if ActiveAt(m, t) {
        StartsFromFront(was, [Stint(m.printing, m.since, m.weight)], inception);
        PricedStand(rule, snapshots, front, inception, t, v);
        CurrentRowStands(rule, snapshots, front, m, was, inception, t, v);
      } else {
        assert ListAsOf(rows, t) == was + [] == was;
        PricedStand(rule, snapshots, front, inception, t, v);
        StandsForNoMore(rule, snapshots, front, m, PricedOf(rule, snapshots, was, inception, t), t, v);
      }
    }
  }

  /** A level of the rows at a time: it counts the current rows and those of them that have both prices,
      and its value is where the latter balance, 100 when none of them has a weight. */
  ghost predicate Balanced(rule: Rule, snapshots: seq<Snapshot>, rows: seq<Member>, t: int, l: Level) {
    && l.components == |CurrentRows(rows, t)| && l.priced == |CountedRows(rule, snapshots, rows, t)|
    && (if l.components == 0 then l.coverage == 0.0 else l.coverage * l.components as real == l.priced as real)
    && l.quality == (if l.priced == 0 then InsufficientData
                     else if 5 * l.priced >= 4 * l.components then Complete else Partial)
    && if SomeRowWeighs(rule, snapshots, rows, t) then RowsPull(rule, snapshots, rows, t, l.value) == 0.0
       else l.value == 100.0
  }

  lemma CoverageTimes(priced: nat, components: nat)
    requires components > 0
    ensures priced as real / components as real * components as real == priced as real
  {
  }

  lemma PricedLevelBalances(rule: Rule, snapshots: seq<Snapshot>, rows: seq<Member>, ps: seq<Priced>, n: nat, t: int)
    requires NonNegative(ps) && Stands(rule, snapshots, rows, ps, t, Value(ps)) && 0 < n == |CurrentRows(rows, t)|
    ensures var coverage := |ps| as real / n as real;
      Balanced(rule, snapshots, rows, t, Level(Value(ps), n, |ps|, coverage, QualityOf(|ps|, coverage)))
  {
    SomeWeightCounts(ps);
    ValueBalances(ps);
    QualityByCounts(|ps|, n);
    CoverageTimes(|ps|, n);
  }

  /** For rows without negative weights. */
  lemma {:induction false} LevelBalances(rule: Rule, snapshots: seq<Snapshot>, rows: seq<Member>, t: int)
    requires WeightsStored(rows)
    ensures Balanced(rule, snapshots, rows, t, LevelOf(rule, snapshots, ListAsOf(rows, t), t))
  {
    var stints := ListAsOf(rows, t);
    ListedAreCurrent(rows, t);
    if stints == [] {
      NothingCounts(rule, snapshots, rows, t);
    } else {
      var inception := Inception(stints);
      forall i | 0 <= i < |stints| ensures inception <= stints[i].since { InceptionIsEarliest(stints, i); }
      var ps := PricedOf(rule, snapshots, stints, inception, t);
      ListedWeights(rows, t);
      PricedWeights(rule, snapshots, stints, inception, t);
      PricedStand(rule, snapshots, rows, inception, t, Value(ps));
      PricedLevelBalances(rule, snapshots, rows, ps, |stints|, t);
    }
  }

  lemma NothingCounts(rule: Rule, snapshots: seq<Snapshot>, rows: seq<Member>, t: int)
    requires CurrentRows(rows, t) == {}
    ensures CountedRows(rule, snapshots, rows, t) == {} && !SomeRowWeighs(rule, snapshots, rows, t)
  {
    forall i: nat | i < |rows| ensures !Counted(rule, snapshots, rows[i], t) {
      assert i !in CurrentRows(rows, t);
    }
  }

  /** In every store that a run reaches from an empty index the level at any time is balanced. */
  lemma {:induction false} ReachableLevelsBalance(st: Store, actions: seq<Action>, t: int)
    requires st.rows == [] && st.definition.Some? && DistinctPrintings(st.printings)
    ensures var end := Run(st, actions);
      LevelAt(end, t).Some? && Balanced(st.definition.value.rule, end.snapshots, end.rows, t, LevelAt(end, t).value)
  {
    RunsKeepWeights(st, actions);
    var end := Run(st, actions);
    LevelBalances(st.definition.value.rule, end.snapshots, end.rows, t);
  }

  // ----- Membership after a rebalance -----

  /** From an empty index under a rule on ungraded prices, with dates that do not decrease: after every
      rebalance exactly the printings are members that the rule asks for and that were traded enough. */
  lemma {:induction false} UngradedMembers(st: Store, actions: seq<Action>, now: int, asOf: int, id: PrintingId)
    requires st.definition.Some? && st.definition.value.rule.graded != Psa10
    requires st.rows == [] && DistinctPrintings(st.printings)
    requires Chronological(actions, now) && LastRebalance(actions, now) <= asOf
    ensures var end, rule := Run(st, actions), st.definition.value.rule;
      IsMember(RebalanceStore(end, asOf).rows, id, asOf) <==>
        && (rule.mixed || rule.language !in {None, Some("")})
        && Listed(rule, st.printings, id) && Traded(rule, id, end.snapshots, asOf)
  {
    UngradedRebalancesSucceed(st, actions, now, asOf);
    var end := Run(st, actions);
    QualifiedExactly(st.definition.value.rule, st.printings, end.snapshots, asOf, id);
  }

  /** A rebalance that completes stores every newcomer from its date on with its share of the new index,
      by the weighting the index is defined with. */
  lemma NewcomersWeighed(st: Store, asOf: int, k: nat)
    requires st.definition.Some? && DistinctPrintings(st.printings) && RebalanceStore(st, asOf).ok
    requires k < |Next(st, asOf)| && !IsMember(st.rows, Next(st, asOf)[k].printing, asOf)
    ensures var next := Next(st, asOf);
      Member(next[k].printing, asOf, None, Share(next, st.definition.value.weighting, next[k]))
        in RebalanceStore(st, asOf).rows
  {
    NextIsDistinct(st, asOf);
    NewcomersStoreShares(st.rows, Next(st, asOf), st.definition.value.weighting, asOf);
  }
}
