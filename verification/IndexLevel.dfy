/** Index weights, the index level, and the store they are computed from
    (packages/db/src/analytics/index-engine.ts), over exact rationals. */
module IndexLevel {
  import opened Common
  import opened MarketHistory
  import opened IndexMembership

  const BASE_VALUE: real := 100.0

  datatype Weighting = Liquidity | EqualShare

  // ----- Weights -----

  function TotalSales(cs: seq<Candidate>): int {
    if cs == [] then 0 else TotalSales(cs[..|cs| - 1]) + Max(cs[|cs| - 1].sales, 0)
  }

  function Share(cs: seq<Candidate>, weighting: Weighting, c: Candidate): real
    requires cs != []
  {
    if weighting == Liquidity && TotalSales(cs) > 0 then c.sales as real / TotalSales(cs) as real
    else 1.0 / |cs| as real
  }

  function WeightMap(cs: seq<Candidate>, weighting: Weighting, n: nat): map<PrintingId, real>
    requires n <= |cs|
  {
    if n == 0 then map[] else WeightMap(cs, weighting, n - 1)[cs[n - 1].printing := Share(cs, weighting, cs[n - 1])]
  }

  function Weights(cs: seq<Candidate>, weighting: Weighting): map<PrintingId, real> {
    WeightMap(cs, weighting, |cs|)
  }

  function WeightTotal(cs: seq<Candidate>, weights: map<PrintingId, real>): real {
    if cs == [] then 0.0 else WeightTotal(cs[..|cs| - 1], weights) + WeightOf(weights, cs[|cs| - 1].printing)
  }

  lemma {:induction false} WeightIsShare(cs: seq<Candidate>, weighting: Weighting, n: nat, i: nat)
    requires DistinctCandidates(cs) && i < n <= |cs|
    ensures WeightOf(WeightMap(cs, weighting, n), cs[i].printing) == Share(cs, weighting, cs[i])
  {
    if i < n - 1 {
      WeightIsShare(cs, weighting, n - 1, i);
      assert cs[i].printing != cs[n - 1].printing;
    }
  }

  function PlainSales(cs: seq<Candidate>): int {
    if cs == [] then 0 else PlainSales(cs[..|cs| - 1]) + cs[|cs| - 1].sales
  }

  lemma {:induction false} PlainAgainstTotal(cs: seq<Candidate>)
    ensures PlainSales(cs) <= TotalSales(cs)
    ensures PlainSales(cs) == TotalSales(cs) <==> NoNegativeSales(cs)
  {
    if cs != [] {
      PlainAgainstTotal(cs[..|cs| - 1]);
      assert NoNegativeSales(cs) <==> NoNegativeSales(cs[..|cs| - 1]) && cs[|cs| - 1].sales >= 0;
    }
  }

  /** The printings of `part` weighted by proportional shares. */
  lemma {:induction false} ProportionalTotal(part: seq<Candidate>, weights: map<PrintingId, real>, total: int)
    requires total > 0
    requires forall i :: 0 <= i < |part| ==>
      WeightOf(weights, part[i].printing) == part[i].sales as real / total as real
    ensures WeightTotal(part, weights) == PlainSales(part) as real / total as real
  {
    if part != [] {
      ProportionalTotal(part[..|part| - 1], weights, total);
    }
  }

  lemma {:induction false} EqualTotal(part: seq<Candidate>, weights: map<PrintingId, real>, n: nat)
    requires n > 0
    requires forall i :: 0 <= i < |part| ==> WeightOf(weights, part[i].printing) == 1.0 / n as real
    ensures WeightTotal(part, weights) == |part| as real / n as real
  {
    if part != [] {
      EqualTotal(part[..|part| - 1], weights, n);
    }
  }

  /** Weights of a non-empty index sum to 1 exactly when no negative sales enter the
      proportional method, and then none is negative. */
  lemma {:induction false} WeightsSumToOne(cs: seq<Candidate>, weighting: Weighting)
    requires cs != [] && DistinctCandidates(cs)
    ensures WeightTotal(cs, Weights(cs, weighting)) == 1.0
      <==> weighting == EqualShare || TotalSales(cs) <= 0 || NoNegativeSales(cs)
  {
    var w := Weights(cs, weighting);
    forall i | 0 <= i < |cs| ensures WeightOf(w, cs[i].printing) == Share(cs, weighting, cs[i]) {
      WeightIsShare(cs, weighting, |cs|, i);
    }
    if weighting == Liquidity && TotalSales(cs) > 0 {
      ProportionalTotal(cs, w, TotalSales(cs));
      PlainAgainstTotal(cs);
      QuotientIsOne(PlainSales(cs), TotalSales(cs));
    } else {
      EqualTotal(cs, w, |cs|);
      QuotientIsOne(|cs|, |cs|);
    }
  }

  lemma QuotientIsOne(a: int, b: int)
    requires b > 0
    ensures a as real / b as real == 1.0 <==> a == b
  {
    assert a as real == (a as real / b as real) * b as real;
  }

  lemma {:induction false} SharesBounded(cs: seq<Candidate>, weighting: Weighting, n: nat)
    requires n <= |cs| && NoNegativeSales(cs)
    ensures forall id :: id in WeightMap(cs, weighting, n) ==> WeightMap(cs, weighting, n)[id] >= 0.0
  {
    if n > 0 {
      SharesBounded(cs, weighting, n - 1);
      assert cs[n - 1].sales >= 0;
    }
  }

  /** What the engine stores is never negative. */
  lemma WeightsNonNegative(cs: seq<Candidate>, weighting: Weighting, id: PrintingId)
    requires NoNegativeSales(cs)
    ensures WeightOf(Weights(cs, weighting), id) >= 0.0
  {
    SharesBounded(cs, weighting, |cs|);
  }

  // ----- The level -----

  datatype Quality = Complete | Partial | InsufficientData

  datatype Level = Level(value: real, components: nat, priced: nat, coverage: real, quality: Quality)

  datatype Priced = Priced(weight: real, rel: real)

  function Inception(stints: seq<Stint>): int
    requires stints != []
  {
    if |stints| == 1 then stints[0].since
    else Min(stints[|stints| - 1].since, Inception(stints[..|stints| - 1]))
  }

  function BaseDate(m: Stint, inception: int): int {
    if m.since < inception then inception else m.since
  }

  lemma {:induction false} InceptionIsEarliest(stints: seq<Stint>, i: nat)
    requires i < |stints|
    ensures Inception(stints) <= stints[i].since
  {
    if i < |stints| - 1 {
      InceptionIsEarliest(stints[..|stints| - 1], i);
    }
  }

  /** Clamping to the inception never changes the date of a base price. */
  lemma {:induction false} ClampNeverBinds(stints: seq<Stint>, i: nat)
    requires i < |stints|
    ensures BaseDate(stints[i], Inception(stints)) == stints[i].since
  {
    InceptionIsEarliest(stints, i);
  }

  /** A member's price relative, when both prices exist in one currency and the base is positive. */
  function Relative(base: Option<Price>, current: Option<Price>): Option<real> {
    if base.None? || current.None? then None
    else if base.value.amount <= 0.0 || base.value.currency != current.value.currency then None
    else Some(current.value.amount / base.value.amount)
  }

  function RelativeOf(rule: Rule, snapshots: seq<Snapshot>, m: Stint, inception: int, asOf: int): Option<real> {
    var q := Query(m.printing, rule.condition, rule.graded);
    Relative(SoldPrice(snapshots, q, BaseDate(m, inception)), SoldPrice(snapshots, q, asOf))
  }

  function PricedOf(
      rule: Rule, snapshots: seq<Snapshot>, stints: seq<Stint>, inception: int, asOf: int): (r: seq<Priced>)
    ensures |r| <= |stints|
  {
    if stints == [] then []
    else
      var m := stints[|stints| - 1];
      var rel := RelativeOf(rule, snapshots, m, inception, asOf);
      PricedOf(rule, snapshots, stints[..|stints| - 1], inception, asOf)
      + if rel.Some? then [Priced(m.weight, rel.value)] else []
  }

  /** What a priced member stands for: its weight, and the factor from a positive base price to the
      current price in the same currency. */
  ghost predicate IsFactor(rule: Rule, snapshots: seq<Snapshot>, m: Stint, inception: int, asOf: int, p: Priced)
  {
    var q := Query(m.printing, rule.condition, rule.graded);
    var base, current := SoldPrice(snapshots, q, BaseDate(m, inception)), SoldPrice(snapshots, q, asOf);
    && p.weight == m.weight && base.Some? && current.Some?
    && base.value.currency == current.value.currency && base.value.amount > 0.0
    && p.rel * base.value.amount == current.value.amount
  }

  lemma RelativeIsFactor(rule: Rule, snapshots: seq<Snapshot>, m: Stint, inception: int, asOf: int, p: Priced)
    ensures IsFactor(rule, snapshots, m, inception, asOf, p)
      <==> RelativeOf(rule, snapshots, m, inception, asOf) == Some(p.rel) && p.weight == m.weight
  {
    var q := Query(m.printing, rule.condition, rule.graded);
    var base, current := SoldPrice(snapshots, q, BaseDate(m, inception)), SoldPrice(snapshots, q, asOf);
    if base.Some? && current.Some? && base.value.amount > 0.0 {
      FactorIsQuotient(base.value.amount, current.value.amount, p.rel);
    }
  }

  lemma FactorIsQuotient(base: real, current: real, rel: real)
    requires base > 0.0
    ensures rel * base == current <==> rel == current / base
  {
    assert current == (current / base) * base;
  }

  /** Priced are exactly the members with both prices in one currency over a positive base, each
      with the factor between its prices. */
  lemma {:induction false} PricedAreFactors(
      rule: Rule, snapshots: seq<Snapshot>, stints: seq<Stint>, inception: int, asOf: int, p: Priced)
    ensures p in PricedOf(rule, snapshots, stints, inception, asOf)
      <==> exists i :: 0 <= i < |stints| && IsFactor(rule, snapshots, stints[i], inception, asOf, p)
  {
    if stints != [] {
      var front, m := stints[..|stints| - 1], stints[|stints| - 1];
      PricedAreFactors(rule, snapshots, front, inception, asOf, p);
      RelativeIsFactor(rule, snapshots, m, inception, asOf, p);
      assert forall i :: 0 <= i < |front| ==> front[i] == stints[i];
    }
  }

  function WeightSum(ps: seq<Priced>): real {
    if ps == [] then 0.0 else WeightSum(ps[..|ps| - 1]) + ps[|ps| - 1].weight
  }

  function WeightedSum(ps: seq<Priced>): real {
    if ps == [] then 0.0 else WeightedSum(ps[..|ps| - 1]) + ps[|ps| - 1].weight * ps[|ps| - 1].rel
  }

  function Value(ps: seq<Priced>): real {
    if ps == [] || WeightSum(ps) <= 0.0 then BASE_VALUE else BASE_VALUE * (WeightedSum(ps) / WeightSum(ps))
  }

  function QualityOf(priced: nat, coverage: real): Quality {
    if priced == 0 then InsufficientData else if coverage >= 0.8 then Complete else Partial
  }

  function LevelOf(rule: Rule, snapshots: seq<Snapshot>, stints: seq<Stint>, asOf: int): Level {
    if stints == [] then Level(BASE_VALUE, 0, 0, 0.0, InsufficientData)
    else
      var ps := PricedOf(rule, snapshots, stints, Inception(stints), asOf);
      var coverage := |ps| as real / |stints| as real;
      Level(Value(ps), |stints|, |ps|, coverage, QualityOf(|ps|, coverage))
  }

  /** The quality grade in whole counts: complete from four fifths of the members on. */
  lemma QualityByCounts(priced: nat, components: nat)
    requires components > 0
    ensures var q := QualityOf(priced, priced as real / components as real);
      && (q == InsufficientData <==> priced == 0)
      && (q == Complete <==> priced > 0 && 5 * priced >= 4 * components)
  {
    RatioReaches(priced as real, components as real, 0.8);
  }

  lemma RatioReaches(a: real, b: real, bound: real)
    requires b > 0.0
    ensures a / b >= bound <==> a >= bound * b
  {
    assert a == (a / b) * b;
  }

  // ----- Bounds -----

  function MinRel(ps: seq<Priced>): real
    requires ps != []
  {
    var r := ps[|ps| - 1].rel;
    if |ps| == 1 then r else if r < MinRel(ps[..|ps| - 1]) then r else MinRel(ps[..|ps| - 1])
  }

  function MaxRel(ps: seq<Priced>): real
    requires ps != []
  {
    var r := ps[|ps| - 1].rel;
    if |ps| == 1 then r else if r > MaxRel(ps[..|ps| - 1]) then r else MaxRel(ps[..|ps| - 1])
  }

  ghost predicate NonNegative(ps: seq<Priced>) {
    forall i :: 0 <= i < |ps| ==> ps[i].weight >= 0.0
  }

  ghost predicate Within(ps: seq<Priced>, lo: real, hi: real) {
    forall i :: 0 <= i < |ps| ==> lo <= ps[i].rel <= hi
  }

  lemma {:induction false} ExtremesBound(ps: seq<Priced>)
    requires ps != []
    ensures Within(ps, MinRel(ps), MaxRel(ps))
  {
    if |ps| > 1 {
      ExtremesBound(ps[..|ps| - 1]);
      forall i | 0 <= i < |ps| ensures MinRel(ps) <= ps[i].rel <= MaxRel(ps) {
        if i < |ps| - 1 { assert ps[..|ps| - 1][i] == ps[i]; }
      }
    }
  }

  lemma {:induction false} SumIsNonNegative(ps: seq<Priced>)
    requires NonNegative(ps)
    ensures WeightSum(ps) >= 0.0
  {
    if ps != [] { SumIsNonNegative(ps[..|ps| - 1]); }
  }

  lemma AddAbove(lo: real, total: real, sum: real, w: real, rel: real, total': real, sum': real)
    requires lo * total <= sum && w >= 0.0 && lo <= rel
    requires total' == total + w && sum' == sum + w * rel
    ensures lo * total' <= sum'
  {
    assert lo * w <= rel * w;
    assert lo * total' == lo * total + lo * w;
  }

  lemma {:induction false} SumAbove(ps: seq<Priced>, lo: real)
    requires NonNegative(ps) && forall i :: 0 <= i < |ps| ==> lo <= ps[i].rel
    ensures lo * WeightSum(ps) <= WeightedSum(ps)
  {
    if ps != [] {
      var front, p := ps[..|ps| - 1], ps[|ps| - 1];
      SumAbove(front, lo);
      AddAbove(lo, WeightSum(front), WeightedSum(front), p.weight, p.rel, WeightSum(ps), WeightedSum(ps));
    }
  }

  lemma AddBelow(hi: real, total: real, sum: real, w: real, rel: real, total': real, sum': real)
    requires sum <= hi * total && w >= 0.0 && rel <= hi
    requires total' == total + w && sum' == sum + w * rel
    ensures sum' <= hi * total'
  {
    assert rel * w <= hi * w;
    assert hi * total' == hi * total + hi * w;
  }

  lemma {:induction false} SumBelow(ps: seq<Priced>, hi: real)
    requires NonNegative(ps) && forall i :: 0 <= i < |ps| ==> ps[i].rel <= hi
    ensures WeightedSum(ps) <= hi * WeightSum(ps)
  {
    if ps != [] {
      var front, p := ps[..|ps| - 1], ps[|ps| - 1];
      SumBelow(front, hi);
      AddBelow(hi, WeightSum(front), WeightedSum(front), p.weight, p.rel, WeightSum(ps), WeightedSum(ps));
    }
  }

  lemma QuotientBounds(lo: real, x: real, w: real, hi: real)
    requires w > 0.0 && lo * w <= x <= hi * w
    ensures lo <= x / w <= hi
  {
    assert x == (x / w) * w;
  }

  /** Renormalized over the priced members, the level lies between 100 times the smallest
      and 100 times the largest price relative exactly when some weight is positive, or
      unchanged prices lie in that range too; with all weights zero it falls back to 100. */
  lemma {:induction false} LevelBetweenExtremes(ps: seq<Priced>)
    requires ps != [] && NonNegative(ps)
    ensures BASE_VALUE * MinRel(ps) <= Value(ps) <= BASE_VALUE * MaxRel(ps)
      <==> WeightSum(ps) > 0.0 || MinRel(ps) <= 1.0 <= MaxRel(ps)
  {
    var lo, hi := MinRel(ps), MaxRel(ps);
    ExtremesBound(ps);
    SumIsNonNegative(ps);
    SumAbove(ps, lo);
    SumBelow(ps, hi);
    if WeightSum(ps) > 0.0 {
      QuotientBounds(lo, WeightedSum(ps), WeightSum(ps), hi);
    }
  }

  // ----- Later data -----

  lemma RelativeIgnoresLater(
      rule: Rule, snapshots: seq<Snapshot>, more: seq<Snapshot>, m: Stint, inception: int, asOf: int)
    requires AllAfter(more, asOf) && m.since <= asOf && inception <= asOf
    ensures RelativeOf(rule, snapshots + more, m, inception, asOf) == RelativeOf(rule, snapshots, m, inception, asOf)
  {
    var q := Query(m.printing, rule.condition, rule.graded);
    PriceIgnoresLater(snapshots, more, q, asOf);
    PriceIgnoresLater(snapshots, more, q, BaseDate(m, inception));
  }

  lemma {:induction false} PricedIgnoresLater(
      rule: Rule, snapshots: seq<Snapshot>, more: seq<Snapshot>, stints: seq<Stint>, inception: int, asOf: int)
    requires AllAfter(more, asOf) && inception <= asOf
    requires forall i :: 0 <= i < |stints| ==> stints[i].since <= asOf
    ensures PricedOf(rule, snapshots + more, stints, inception, asOf)
      == PricedOf(rule, snapshots, stints, inception, asOf)
  {
    if stints != [] {
      PricedIgnoresLater(rule, snapshots, more, stints[..|stints| - 1], inception, asOf);
      RelativeIgnoresLater(rule, snapshots, more, stints[|stints| - 1], inception, asOf);
    }
  }

  lemma {:induction false} ListedHaveStarted(rows: seq<Member>, t: int)
    ensures forall i :: 0 <= i < |ListAsOf(rows, t)| ==> ListAsOf(rows, t)[i].since <= t
  {
    if rows != [] {
      ListedHaveStarted(rows[..|rows| - 1], t);
    }
  }

  lemma {:induction false} LevelIgnoresLater(
      rule: Rule, snapshots: seq<Snapshot>, more: seq<Snapshot>, rows: seq<Member>, t: int)
    requires AllAfter(more, t)
    ensures LevelOf(rule, snapshots + more, ListAsOf(rows, t), t) == LevelOf(rule, snapshots, ListAsOf(rows, t), t)
  {
    var stints := ListAsOf(rows, t);
    if stints != [] {
      ListedHaveStarted(rows, t);
      InceptionIsEarliest(stints, 0);
      PricedIgnoresLater(rule, snapshots, more, stints, Inception(stints), t);
    }
  }

  // ----- Stored weights over several rebalances -----

  /** A completed rebalance stores each newcomer from its date on with its share of the new
      index, and leaves the rows of those who stay as they were. */
  lemma NewcomersStoreShares(rows: seq<Member>, next: seq<Candidate>, weighting: Weighting, asOf: int)
    requires DistinctCandidates(next) && Rebalance(rows, next, Weights(next, weighting), asOf).ok
    ensures var r := Rebalance(rows, next, Weights(next, weighting), asOf).rows;
      && (forall k :: 0 <= k < |next| && !IsMember(rows, next[k].printing, asOf) ==>
            Member(next[k].printing, asOf, None, Share(next, weighting, next[k])) in r)
      && (forall i :: 0 <= i < |rows| && InCandidates(next, rows[i].printing) ==> i < |r| && r[i] == rows[i])
  {
    var w := Weights(next, weighting);
    var closed := CloseAll(rows, next, asOf).rows;
    InsertedOnly(closed, rows, next, w, asOf);
    forall k | 0 <= k < |next| && !IsMember(rows, next[k].printing, asOf)
      ensures Member(next[k].printing, asOf, None, Share(next, weighting, next[k]))
        in Rebalance(rows, next, w, asOf).rows
    {
      NewcomerStored(closed, rows, next, w, asOf, k);
      WeightIsShare(next, weighting, |next|, k);
    }
  }

  function StoredTotal(stints: seq<Stint>): real {
    if stints == [] then 0.0 else StoredTotal(stints[..|stints| - 1]) + stints[|stints| - 1].weight
  }

  /** A newcomer is stored with its share of the new index while the others keep theirs: two
      equal members joined by a third store 1/2, 1/2 and 1/3. */
  lemma {:induction false} StoredWeightsDrift(a: PrintingId, b: PrintingId, c: PrintingId, t: int, later: int)
    requires a != b && b != c && a != c && t <= later
    ensures var two := [Candidate(a, 1), Candidate(b, 1)];
      var three := two + [Candidate(c, 1)];
      var first := Rebalance([], two, Weights(two, EqualShare), t);
      var second := Rebalance(first.rows, three, Weights(three, EqualShare), later);
      && StoredTotal(ListAsOf(first.rows, later)) == 1.0
      && StoredTotal(ListAsOf(second.rows, later)) == 4.0 / 3.0
  {
    var two := [Candidate(a, 1), Candidate(b, 1)];
    var three := two + [Candidate(c, 1)];
    var w2, w3 := Weights(two, EqualShare), Weights(three, EqualShare);
    WeightIsShare(two, EqualShare, 2, 0);
    WeightIsShare(two, EqualShare, 2, 1);
    WeightIsShare(three, EqualShare, 3, 2);
    var ma, mb, mc := Member(a, t, None, 0.5), Member(b, t, None, 0.5), Member(c, later, None, 1.0 / 3.0);
    BothJoin(two[0], two[1], w2, t);
    ThirdJoins(ma, mb, c, w3, later);
    ListOfTwo(ma, mb, later);
    TotalsOf(ma, mb, mc, later);
  }

  lemma {:induction false} TotalsOf(ma: Member, mb: Member, mc: Member, t: int)
    requires ActiveAt(ma, t) && ActiveAt(mb, t) && ActiveAt(mc, t)
    ensures StoredTotal(ListAsOf([ma, mb], t)) == ma.weight + mb.weight
    ensures StoredTotal(ListAsOf([ma, mb] + [mc], t)) == ma.weight + mb.weight + mc.weight
  {
    var sa, sb, sc := Stint(ma.printing, ma.since, ma.weight), Stint(mb.printing, mb.since, mb.weight),
        Stint(mc.printing, mc.since, mc.weight);
    ListOfTwo(ma, mb, t);
    ListAppend([ma, mb], mc, t);
    TotalAppend([], sa);
    TotalAppend([sa], sb);
    TotalAppend([sa, sb], sc);
    assert [] + [sa] == [sa] && [sa] + [sb] == [sa, sb];
  }

  lemma {:induction false} TotalAppend(stints: seq<Stint>, s: Stint)
    ensures StoredTotal(stints + [s]) == StoredTotal(stints) + s.weight
  {
    assert (stints + [s])[..|stints|] == stints;
  }

  lemma BothJoin(ca: Candidate, cb: Candidate, w: map<PrintingId, real>, t: int)
    requires ca.printing != cb.printing
    ensures Rebalance([], [ca, cb], w, t).rows
      == [Member(ca.printing, t, None, WeightOf(w, ca.printing)),
          Member(cb.printing, t, None, WeightOf(w, cb.printing))]
  {
    var two := [ca, cb];
    assert two[..1] == [ca];
    InsertOne([], [], ca, w, t);
    assert CloseAll([], two, t) == Outcome([], true);
    assert InsertAll([], [], two[..1], w, t).rows == [Member(ca.printing, t, None, WeightOf(w, ca.printing))];
  }

  lemma {:induction false} ListOfTwo(ma: Member, mb: Member, t: int)
    requires ActiveAt(ma, t) && ActiveAt(mb, t)
    ensures ListAsOf([ma, mb], t) == [Stint(ma.printing, ma.since, ma.weight), Stint(mb.printing, mb.since, mb.weight)]
  {
    ListAppend([], ma, t);
    assert [] + [ma] == [ma];
    ListAppend([ma], mb, t);
    assert [ma] + [mb] == [ma, mb];
  }

  lemma {:induction false} NobodyLeaves(rows: seq<Member>, next: seq<Candidate>, asOf: int)
    requires forall i :: 0 <= i < |rows| ==> InCandidates(next, rows[i].printing)
    ensures CloseAll(rows, next, asOf) == Outcome(rows, true)
  {
    CloseSucceeds(rows, next, asOf);
    assert CloseAll(rows, next, asOf).rows == rows;
  }

  lemma {:induction false} StayersInsertNothing(
      rows: seq<Member>, next: seq<Candidate>, w: map<PrintingId, real>, asOf: int)
    requires forall k :: 0 <= k < |next| ==> IsMember(rows, next[k].printing, asOf)
    ensures InsertAll(rows, rows, next, w, asOf) == Outcome(rows, true)
  {
    if next != [] {
      StayersInsertNothing(rows, next[..|next| - 1], w, asOf);
    }
  }

  lemma {:induction false} InsertLast(
      rows: seq<Member>, stay: seq<Candidate>, c: Candidate, w: map<PrintingId, real>, asOf: int)
    requires InsertAll(rows, rows, stay, w, asOf) == Outcome(rows, true)
    requires forall i :: 0 <= i < |rows| ==> rows[i].printing != c.printing
    ensures InsertAll(rows, rows, stay + [c], w, asOf).rows
      == rows + [Member(c.printing, asOf, None, WeightOf(w, c.printing))]
  {
    assert (stay + [c])[..|stay|] == stay;
  }

  lemma {:induction false} NewcomerJoins(
      rows: seq<Member>, stay: seq<Candidate>, c: Candidate, w: map<PrintingId, real>, asOf: int)
    requires forall i :: 0 <= i < |rows| ==> rows[i].printing != c.printing
    requires CloseAll(rows, stay + [c], asOf) == Outcome(rows, true)
    requires InsertAll(rows, rows, stay, w, asOf) == Outcome(rows, true)
    ensures Rebalance(rows, stay + [c], w, asOf).rows
      == rows + [Member(c.printing, asOf, None, WeightOf(w, c.printing))]
  {
    InsertLast(rows, stay, c, w, asOf);
  }

  lemma ThirdJoins(ma: Member, mb: Member, c: PrintingId, w: map<PrintingId, real>, t: int)
    requires ActiveAt(ma, t) && ActiveAt(mb, t) && c != ma.printing && c != mb.printing
    ensures Rebalance([ma, mb], [Candidate(ma.printing, 1), Candidate(mb.printing, 1)] + [Candidate(c, 1)], w, t).rows
      == [ma, mb] + [Member(c, t, None, WeightOf(w, c))]
  {
    var stay, rows := [Candidate(ma.printing, 1), Candidate(mb.printing, 1)], [ma, mb];
    assert stay[0].printing == ma.printing && stay[1].printing == mb.printing;
    assert rows[0] == ma && rows[1] == mb;
    CandidateAppend(stay, Candidate(c, 1), ma.printing);
    CandidateAppend(stay, Candidate(c, 1), mb.printing);
    NobodyLeaves(rows, stay + [Candidate(c, 1)], t);
    StayersInsertNothing(rows, stay, w, t);
    NewcomerJoins(rows, stay, Candidate(c, 1), w, t);
  }
}
