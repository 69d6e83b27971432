/** The index engine: qualify, rebalance and compute levels over stored rows
    (packages/db/src/analytics/index-engine.ts), and what holds over whole runs. */
module IndexEngine {
  import opened Common
  import opened MarketHistory
  import opened IndexMembership
  import opened IndexLevel

  datatype Definition = Definition(rule: Rule, weighting: Weighting)

  datatype IndexError = IndexNotFound | CloseRefused | UniqueViolation

  datatype Store = Store(
    definition: Option<Definition>, printings: seq<Printing>, snapshots: seq<Snapshot>, rows: seq<Member>)

  /** The printings that qualify at a time. */
  function Next(st: Store, asOf: int): seq<Candidate>
    requires st.definition.Some?
  {
    Qualified(st.definition.value.rule, st.printings, st.snapshots, asOf)
  }

  /** The whole effect of a rebalance on the membership rows, and whether it completed. */
  function RebalanceStore(st: Store, asOf: int): Outcome {
    if st.definition.None? then Outcome(st.rows, false)
    else
      var next := Next(st, asOf);
      Rebalance(st.rows, next, Weights(next, st.definition.value.weighting), asOf)
  }

  /** The positions of all rows, the earlier starts first. */
  predicate ByStart(rows: seq<Member>, order: seq<nat>) {
    && (forall j :: 0 <= j < |order| ==> order[j] < |rows|)
    && (forall i :: 0 <= i < |rows| ==> i in order)
    && (forall j, k :: 0 <= j < k < |order| ==> rows[order[j]].since <= rows[order[k]].since)
  }

  /** The rows while leavers are being closed: those at the positions `seen` are dealt with. */
  ghost predicate Swept(rows: seq<Member>, was: seq<Member>, seen: seq<nat>, next: seq<Candidate>, asOf: int) {
    && |rows| == |was|
    && (forall i :: 0 <= i < |was| ==> rows[i] == if i in seen then CloseOne(was[i], next, asOf) else was[i])
    && (forall i :: 0 <= i < |was| && i in seen ==> !Refused(was[i], next, asOf))
  }

  lemma SweepStep(rows: seq<Member>, was: seq<Member>, seen: seq<nat>, next: seq<Candidate>, asOf: int, i: nat)
    requires Swept(rows, was, seen, next, asOf) && i < |was| && !Refused(rows[i], next, asOf)
    ensures Swept(rows[i := CloseOne(rows[i], next, asOf)], was, seen + [i], next, asOf)
  {
  }

  lemma {:induction false} SweepEnds(
      rows: seq<Member>, was: seq<Member>, order: seq<nat>, next: seq<Candidate>, asOf: int)
    requires ByStart(was, order) && Swept(rows, was, order, next, asOf)
    ensures Outcome(rows, true) == CloseAll(was, next, asOf)
  {
    CloseSucceeds(was, next, asOf);
    assert rows == CloseAll(was, next, asOf).rows;
  }

  /** From a refused row on nothing could have been closed. */
  lemma {:induction false} SweepStops(
      rows: seq<Member>, was: seq<Member>, order: seq<nat>, next: seq<Candidate>, asOf: int, k: nat)
    requires ByStart(was, order) && k < |order| && Swept(rows, was, order[..k], next, asOf)
    requires Refused(rows[order[k]], next, asOf)
    ensures Outcome(rows, false) == CloseAll(was, next, asOf)
  {
    CloseSucceeds(was, next, asOf);
    assert Refused(was[order[k]], next, asOf);
    forall i: nat | i < |was| && i !in order[..k] ensures was[i].since >= asOf {
      assert i in order;
      var j :| 0 <= j < |order| && order[j] == i;
      assert j >= k;
    }
    assert rows == CloseAll(was, next, asOf).rows;
  }

  function LevelAt(st: Store, t: int): Option<Level> {
    if st.definition.None? then None
    else Some(LevelOf(st.definition.value.rule, st.snapshots, ListAsOf(st.rows, t), t))
  }

  // ----- The engine, step by step -----

  class Engine {
    var definition: Option<Definition>
    var printings: seq<Printing>
    var snapshots: seq<Snapshot>
    var membership: seq<Member>

    function State(): Store reads this { Store(definition, printings, snapshots, membership) }

    constructor (definition: Option<Definition>, printings: seq<Printing>)
      ensures State() == Store(definition, printings, [], [])
    {
      this.definition, this.printings, snapshots, membership := definition, printings, [], [];
    }

    method SoldPriceAsOf(q: Query, asOf: int) returns (price: Option<Price>)
      ensures price == SoldPrice(snapshots, q, asOf)
    {
      var row: Option<Snapshot> := None;
      for i := 0 to |snapshots|
        invariant row == Latest(snapshots[..i], q, asOf)
      {
        assert snapshots[..i + 1][..i] == snapshots[..i];
        if Eligible(snapshots[i], q, asOf) && (row.None? || row.value.observedAt < snapshots[i].observedAt) {
          row := Some(snapshots[i]);
        }
      }
      assert snapshots[..|snapshots|] == snapshots;
      if row.None? || row.value.price.None? { return None; }
      return Some(Price(row.value.price.value, row.value.currency));
    }

    method QualifyIndexMembers(asOf: int) returns (r: Result<seq<Candidate>, IndexError>)
      ensures r == if definition.None? then Err(IndexNotFound)
                   else Ok(Qualified(definition.value.rule, printings, snapshots, asOf))
    {
      if definition.None? { return Err(IndexNotFound); }
      var rule := definition.value.rule;
      if !NamesLanguages(rule) { return Ok([]); }
      var qualified: seq<Candidate> := [];
      for i := 0 to |printings|
        invariant qualified == Judged(rule, printings[..i], snapshots, asOf)
      {
        assert printings[..i + 1][..i] == printings[..i];
        var c := Judge(rule, printings[i], snapshots, asOf);
        if c.Some? { qualified := qualified + [c.value]; }
      }
      assert printings[..|printings|] == printings;
      return Ok(qualified);
    }

    method ListMembershipAsOf(asOf: int) returns (current: seq<Stint>, ids: set<PrintingId>)
      ensures current == ListAsOf(membership, asOf)
      ensures forall id :: id in ids <==> IsMember(membership, id, asOf)
    {
      current, ids := [], {};
      for i := 0 to |membership|
        invariant current == ListAsOf(membership[..i], asOf)
        invariant forall id :: id in ids <==> IsMember(membership[..i], id, asOf)
      {
        var m := membership[i];
        assert membership[..i + 1] == membership[..i] + [m];
        ListAppend(membership[..i], m, asOf);
        forall id ensures IsMember(membership[..i + 1], id, asOf)
          <==> IsMember(membership[..i], id, asOf) || (m.printing == id && ActiveAt(m, asOf)) {
          MemberAppend(membership[..i], m, id, asOf);
        }
        if ActiveAt(m, asOf) {
          current, ids := current + [Stint(m.printing, m.since, m.weight)], ids + {m.printing};
        }
      }
      assert membership[..|membership|] == membership;
    }

    /** `order` is the order in which the database lists the rows: by start, in any order among equals. */
    method CloseLeavers(next: seq<Candidate>, order: seq<nat>, asOf: int) returns (ok: bool)
      requires ByStart(membership, order)
      modifies this`membership
      ensures Outcome(membership, ok) == CloseAll(old(membership), next, asOf)
    {
      ghost var was := membership;
      for k := 0 to |order|
        invariant Swept(membership, was, order[..k], next, asOf)
      {
        var m := membership[order[k]];
        assert order[..k + 1] == order[..k] + [order[k]];
        if ActiveAt(m, asOf) && !InCandidates(next, m.printing) && m.to.None? {
          if m.since >= asOf {
            SweepStops(membership, was, order, next, asOf, k);
            return false;
          }
          SweepStep(membership, was, order[..k], next, asOf, order[k]);
          membership := membership[order[k] := m.(to := Some(asOf))];
        } else {
          SweepStep(membership, was, order[..k], next, asOf, order[k]);
          assert membership[order[k] := m] == membership;
        }
      }
      assert order[..|order|] == order;
      SweepEnds(membership, was, order, next, asOf);
      return true;
    }

    method OpenNewcomers(
        next: seq<Candidate>, weights: map<PrintingId, real>, ghost was: seq<Member>, current: set<PrintingId>,
        asOf: int)
      returns (ok: bool)
      requires forall id :: id in current <==> IsMember(was, id, asOf)
      modifies this`membership
      ensures Outcome(membership, ok) == InsertAll(old(membership), was, next, weights, asOf)
    {
      for i := 0 to |next|
        invariant Outcome(membership, true) == InsertAll(old(membership), was, next[..i], weights, asOf)
      {
        var id := next[i].printing;
        InsertStep(old(membership), was, next, weights, asOf, i);
        if id !in current {
          if Taken(membership, id, asOf) {
            InsertStops(old(membership), was, next, weights, asOf, i + 1);
            return false;
          }
          membership := membership + [Member(id, asOf, None, WeightOf(weights, id))];
        }
      }
      assert next[..|next|] == next;
      return true;
    }

    /** Close the leavers, open the newcomers; an error surfaces after the rows written before it. */
    method RebalanceIndex(order: seq<nat>, asOf: int) returns (r: Result<seq<Stint>, IndexError>)
      requires ByStart(membership, order)
      modifies this`membership
      ensures membership == RebalanceStore(old(State()), asOf).rows
      ensures r.Ok? <==> RebalanceStore(old(State()), asOf).ok
      ensures r.Ok? ==> r.value == ListAsOf(membership, asOf)
      ensures r.Err? && r.error == IndexNotFound <==> definition.None?
      ensures r.Err? && r.error == CloseRefused
        <==> definition.Some? && Stuck(old(membership), Next(old(State()), asOf), asOf)
    {
      var qualified := QualifyIndexMembers(asOf);
      if qualified.Err? { return Err(qualified.error); }
      var next := qualified.value;
      var weights := Weights(next, definition.value.weighting);
      var current, ids := ListMembershipAsOf(asOf);
      ghost var was := membership;
      CloseSucceeds(was, next, asOf);
      var closed := CloseLeavers(next, order, asOf);
      if !closed { return Err(CloseRefused); }
      var inserted := OpenNewcomers(next, weights, was, ids, asOf);
      if !inserted { return Err(UniqueViolation); }
      var listed, _ := ListMembershipAsOf(asOf);
      return Ok(listed);
    }

    method ComputeIndexLevel(asOf: int) returns (r: Result<Level, IndexError>)
      ensures r == if definition.None? then Err(IndexNotFound) else Ok(LevelAt(State(), asOf).value)
    {
      if definition.None? { return Err(IndexNotFound); }
      var rule := definition.value.rule;
      var members, _ := ListMembershipAsOf(asOf);
      if |members| == 0 { return Ok(Level(BASE_VALUE, 0, 0, 0.0, InsufficientData)); }
      var inception := Inception(members);
      var priced := PriceMembers(rule, members, inception, asOf);
      var weightSum, weighted := AddUp(priced);
      var coverage := |priced| as real / |members| as real;
      var value := if |priced| == 0 || weightSum <= 0.0 then BASE_VALUE else BASE_VALUE * (weighted / weightSum);
      return Ok(Level(value, |members|, |priced|, coverage, QualityOf(|priced|, coverage)));
    }

    method PriceMembers(rule: Rule, members: seq<Stint>, inception: int, asOf: int) returns (priced: seq<Priced>)
      ensures priced == PricedOf(rule, snapshots, members, inception, asOf)
    {
      priced := [];
      for i := 0 to |members|
        invariant priced == PricedOf(rule, snapshots, members[..i], inception, asOf)
      {
        assert members[..i + 1][..i] == members[..i];
        var m := members[i];
        var q := Query(m.printing, rule.condition, rule.graded);
        var base := SoldPriceAsOf(q, BaseDate(m, inception));
        var now := SoldPriceAsOf(q, asOf);
        var rel := Relative(base, now);
        if rel.Some? { priced := priced + [Priced(m.weight, rel.value)]; }
      }
      assert members[..|members|] == members;
    }

    static method AddUp(priced: seq<Priced>) returns (weightSum: real, weighted: real)
      ensures weightSum == WeightSum(priced) && weighted == WeightedSum(priced)
    {
      weightSum, weighted := 0.0, 0.0;
      for i := 0 to |priced|
        invariant weightSum == WeightSum(priced[..i]) && weighted == WeightedSum(priced[..i])
      {
        assert priced[..i + 1][..i] == priced[..i];
        weightSum, weighted := weightSum + priced[i].weight, weighted + priced[i].weight * priced[i].rel;
      }
      assert priced[..|priced|] == priced;
    }
  }

  lemma {:induction false} InsertStops(
      rows: seq<Member>, was: seq<Member>, next: seq<Candidate>, weights: map<PrintingId, real>, asOf: int, i: nat)
    requires i <= |next| && !InsertAll(rows, was, next[..i], weights, asOf).ok
    ensures InsertAll(rows, was, next, weights, asOf) == InsertAll(rows, was, next[..i], weights, asOf)
    decreases |next|
  {
    if i == |next| {
      assert next[..i] == next;
    } else {
      assert next[..|next| - 1][..i] == next[..i];
      InsertStops(rows, was, next[..|next| - 1], weights, asOf, i);
    }
  }

  // ----- Runs -----

  datatype Action = Observe(snapshot: Snapshot) | RebalanceAt(asOf: int)

  function Time(a: Action): int {
    match a case Observe(s) => s.observedAt case RebalanceAt(t) => t
  }

  function Step(st: Store, a: Action): Store {
    match a
    case Observe(s) => st.(snapshots := st.snapshots + [s])
    case RebalanceAt(t) => st.(rows := RebalanceStore(st, t).rows)
  }

  function Run(st: Store, actions: seq<Action>): (end: Store)
    ensures end.definition == st.definition && end.printings == st.printings
    decreases |actions|
  {
    if actions == [] then st else Run(Step(st, actions[0]), actions[1..])
  }

  ghost predicate AllLater(actions: seq<Action>, t: int) {
    forall i :: 0 <= i < |actions| ==> t < Time(actions[i])
  }

  lemma {:induction false} StepKeepsLevel(st: Store, a: Action, t: int)
    requires t < Time(a)
    ensures LevelAt(Step(st, a), t) == LevelAt(st, t)
    ensures ListAsOf(Step(st, a).rows, t) == ListAsOf(st.rows, t)
  {
    if st.definition.Some? {
      var d := st.definition.value;
      if a.Observe? {
        LevelIgnoresLater(d.rule, st.snapshots, [a.snapshot], st.rows, t);
      } else {
        var next := Qualified(d.rule, st.printings, st.snapshots, a.asOf);
        RebalanceKeepsEarlier(st.rows, next, Weights(next, d.weighting), a.asOf, t);
      }
    }
  }

  /** The level computed for a time, and the membership seen there, are never changed by any
      run of later observations and later rebalances, in any order, failed ones included. */
  lemma {:induction false} LevelIsImmutable(st: Store, actions: seq<Action>, t: int)
    requires AllLater(actions, t)
    ensures LevelAt(Run(st, actions), t) == LevelAt(st, t)
    ensures ListAsOf(Run(st, actions).rows, t) == ListAsOf(st.rows, t)
    decreases |actions|
  {
    if actions != [] {
      StepKeepsLevel(st, actions[0], t);
      LevelIsImmutable(Step(st, actions[0]), actions[1..], t);
    }
  }

  /** Rebalance dates do not decrease; observations may be of any time. */
  predicate Chronological(actions: seq<Action>, now: int) {
    if actions == [] then true
    else match actions[0]
      case Observe(_) => Chronological(actions[1..], now)
      case RebalanceAt(t) => now <= t && Chronological(actions[1..], t)
  }

  function LastRebalance(actions: seq<Action>, now: int): int {
    if actions == [] then now
    else match actions[0]
      case Observe(_) => LastRebalance(actions[1..], now)
      case RebalanceAt(t) => LastRebalance(actions[1..], t)
  }

  lemma NextIsDistinct(st: Store, asOf: int)
    requires st.definition.Some? && DistinctPrintings(st.printings)
    ensures DistinctCandidates(Next(st, asOf)) && NoNegativeSales(Next(st, asOf))
  {
    QualifiedOnce(st.definition.value.rule, st.printings, st.snapshots, asOf);
  }

  lemma StepKeepsSound(st: Store, asOf: int, now: int)
    requires DistinctPrintings(st.printings) && Sound(st.rows, now) && now <= asOf
    ensures Sound(Step(st, RebalanceAt(asOf)).rows, asOf)
  {
    if st.definition.Some? {
      NextIsDistinct(st, asOf);
      var next := Next(st, asOf);
      RebalanceKeepsSound(st.rows, next, Weights(next, st.definition.value.weighting), now, asOf);
    } else {
      forall i | 0 <= i < |st.rows| ensures Settled(st.rows[i], asOf) {
        assert Settled(st.rows[i], now);
      }
    }
  }

  /** Over any run whose rebalance dates do not decrease, every printing's intervals stay
      pairwise disjoint, none in the future. */
  lemma {:induction false} RunsKeepSound(st: Store, actions: seq<Action>, now: int)
    requires DistinctPrintings(st.printings) && Sound(st.rows, now) && Chronological(actions, now)
    ensures Sound(Run(st, actions).rows, LastRebalance(actions, now))
    decreases |actions|
  {
    if actions != [] {
      if actions[0].RebalanceAt? {
        StepKeepsSound(st, actions[0].asOf, now);
        RunsKeepSound(Step(st, actions[0]), actions[1..], actions[0].asOf);
      } else {
        RunsKeepSound(Step(st, actions[0]), actions[1..], now);
      }
    }
  }

  /** From an empty index: a printing never has two open intervals, and is never a member twice. */
  lemma {:induction false} NeverTwiceAMember(st: Store, actions: seq<Action>, now: int, i: int, j: int, t: int)
    requires st.rows == [] && DistinctPrintings(st.printings) && Chronological(actions, now)
    requires 0 <= i < j < |Run(st, actions).rows|
    requires Run(st, actions).rows[i].printing == Run(st, actions).rows[j].printing
    ensures Run(st, actions).rows[i].to.Some? || Run(st, actions).rows[j].to.Some?
    ensures !(ActiveAt(Run(st, actions).rows[i], t) && ActiveAt(Run(st, actions).rows[j], t))
  {
    RunsKeepSound(st, actions, now);
    AtMostOneOpen(Run(st, actions).rows, i, j, t);
  }

  // ----- Which rebalances succeed -----

  lemma {:induction false} RunsKeepRange(st: Store, actions: seq<Action>)
    requires AllInRange(st.rows)
    ensures AllInRange(Run(st, actions).rows)
    decreases |actions|
  {
    if actions != [] {
      if actions[0].RebalanceAt? && st.definition.Some? {
        var next := Next(st, actions[0].asOf);
        RebalanceKeepsRange(st.rows, next, Weights(next, st.definition.value.weighting), actions[0].asOf);
      }
      RunsKeepRange(Step(st, actions[0]), actions[1..]);
    }
  }

  /** After any run from rows the table admits, whatever the order of its dates: a rebalance fails
      exactly over a leaver that joined at its very date, never over the unique index. It makes the
      members the qualified printings exactly when it succeeds and no row that already ends later
      keeps another printing in. */
  lemma {:induction false} RebalanceReachesQualified(st: Store, actions: seq<Action>, asOf: int)
    requires st.definition.Some? && DistinctPrintings(st.printings) && AllInRange(st.rows)
    ensures var end := Run(st, actions);
      var next := Next(end, asOf);
      && (RebalanceStore(end, asOf).ok <==> !Stuck(end.rows, next, asOf))
      && (MembersAre(RebalanceStore(end, asOf).rows, next, asOf)
          <==> !Stuck(end.rows, next, asOf) && !Lingering(end.rows, next, asOf))
  {
    RunsKeepRange(st, actions);
    var end := Run(st, actions);
    NextIsDistinct(end, asOf);
    var next := Next(end, asOf);
    MembersAreQualified(end.rows, next, Weights(next, st.definition.value.weighting), asOf);
  }

  /** With dates that do not decrease nothing lingers: a rebalance reaches the qualified printings
      exactly when it succeeds. */
  lemma {:induction false} ForwardRebalanceReaches(st: Store, actions: seq<Action>, now: int, asOf: int)
    requires st.definition.Some? && DistinctPrintings(st.printings) && Sound(st.rows, now)
    requires Chronological(actions, now) && LastRebalance(actions, now) <= asOf
    ensures var end := Run(st, actions);
      var next := Next(end, asOf);
      && (RebalanceStore(end, asOf).ok <==> !Stuck(end.rows, next, asOf))
      && (MembersAre(RebalanceStore(end, asOf).rows, next, asOf) <==> !Stuck(end.rows, next, asOf))
  {
    forall i | 0 <= i < |st.rows| ensures InRange(st.rows[i]) {
      assert Settled(st.rows[i], now);
    }
    RebalanceReachesQualified(st, actions, asOf);
    RunsKeepSound(st, actions, now);
    var end := Run(st, actions);
    NothingLingers(end.rows, Next(end, asOf), LastRebalance(actions, now), asOf);
  }

  /** Whoever joined at the last rebalance date and is still in qualifies at that date. */
  ghost predicate FreshQualify(st: Store, now: int)
    requires st.definition.Some?
  {
    forall i :: 0 <= i < |st.rows| && st.rows[i].to.None? && st.rows[i].since == now ==>
      InCandidates(Next(st, now), st.rows[i].printing)
  }

  lemma FreshAreNotStuck(st: Store, now: int, asOf: int)
    requires st.definition.Some? && AllSettled(st.rows, now) && FreshQualify(st, now) && now <= asOf
    ensures !Stuck(st.rows, Next(st, asOf), asOf)
  {
    forall i | 0 <= i < |st.rows| ensures !Refused(st.rows[i], Next(st, asOf), asOf) {
      assert Settled(st.rows[i], now);
    }
  }

  lemma ObservingKeepsFresh(st: Store, s: Snapshot, now: int)
    requires st.definition.Some? && st.definition.value.rule.graded != Psa10 && FreshQualify(st, now)
    ensures FreshQualify(Step(st, Observe(s)), now)
  {
    forall i | 0 <= i < |st.rows| && st.rows[i].to.None? && st.rows[i].since == now
      ensures InCandidates(Next(Step(st, Observe(s)), now), st.rows[i].printing)
    {
      QualificationGrows(st.definition.value.rule, st.printings, st.snapshots, s, now, st.rows[i].printing);
    }
  }

  lemma RebalancingMakesFresh(st: Store, now: int, asOf: int)
    requires st.definition.Some? && DistinctPrintings(st.printings) && Sound(st.rows, now) && FreshQualify(st, now)
    requires now <= asOf
    ensures RebalanceStore(st, asOf).ok && MembersAre(RebalanceStore(st, asOf).rows, Next(st, asOf), asOf)
    ensures FreshQualify(Step(st, RebalanceAt(asOf)), asOf)
  {
    FreshAreNotStuck(st, now, asOf);
    ForwardRebalanceReaches(st, [], now, asOf);
    var rows := RebalanceStore(st, asOf).rows;
    forall i | 0 <= i < |rows| && rows[i].to.None? && rows[i].since == asOf
      ensures InCandidates(Next(st, asOf), rows[i].printing)
    {
      assert IsMember(rows, rows[i].printing, asOf);
    }
  }

  lemma {:induction false} RunsKeepFresh(st: Store, actions: seq<Action>, now: int)
    requires st.definition.Some? && st.definition.value.rule.graded != Psa10 && DistinctPrintings(st.printings)
    requires Sound(st.rows, now) && FreshQualify(st, now) && Chronological(actions, now)
    ensures FreshQualify(Run(st, actions), LastRebalance(actions, now))
    decreases |actions|
  {
    if actions != [] {
      if actions[0].RebalanceAt? {
        StepKeepsSound(st, actions[0].asOf, now);
        RebalancingMakesFresh(st, now, actions[0].asOf);
        RunsKeepFresh(Step(st, actions[0]), actions[1..], actions[0].asOf);
      } else {
        ObservingKeepsFresh(st, actions[0].snapshot, now);
        RunsKeepFresh(Step(st, actions[0]), actions[1..], now);
      }
    }
  }

  /** Under a rule on ungraded prices qualification at a date only grows, so from an empty index,
      through any observations and any rebalances whose dates do not decrease, every rebalance
      succeeds and makes the members exactly the qualified printings. */
  lemma {:induction false} UngradedRebalancesSucceed(st: Store, actions: seq<Action>, now: int, asOf: int)
    requires st.definition.Some? && st.definition.value.rule.graded != Psa10
    requires st.rows == [] && DistinctPrintings(st.printings)
    requires Chronological(actions, now) && LastRebalance(actions, now) <= asOf
    ensures var end := Run(st, actions);
      RebalanceStore(end, asOf).ok && MembersAre(RebalanceStore(end, asOf).rows, Next(end, asOf), asOf)
  {
    RunsKeepSound(st, actions, now);
    RunsKeepFresh(st, actions, now);
    RebalancingMakesFresh(Run(st, actions), LastRebalance(actions, now), asOf);
  }

  lemma {:induction false} RunThree(st: Store, a: Action, b: Action, c: Action)
    ensures Run(st, [a, b, c]) == Step(Step(Step(st, a), b), c)
  {
    assert [a, b, c][1..] == [b, c] && [b, c][1..] == [c] && [c][1..] == [];
    assert Run(st, [a, b, c]) == Run(Step(st, a), [b, c]);
    assert Run(Step(st, a), [b, c]) == Run(Step(Step(st, a), b), [c]);
  }

  lemma {:induction false} RunFour(st: Store, a: Action, b: Action, c: Action, d: Action)
    ensures Run(st, [a, b, c, d]) == Step(Step(Step(Step(st, a), b), c), d)
  {
    assert [a, b, c, d][1..] == [b, c, d];
    RunThree(Step(st, a), b, c, d);
  }

  lemma {:induction false} PriceOfNewest(snapshots: seq<Snapshot>, s: Snapshot, q: Query, asOf: int)
    requires Eligible(s, q, asOf)
    requires Latest(snapshots, q, asOf).None? || Latest(snapshots, q, asOf).value.observedAt < s.observedAt
    ensures Latest(snapshots + [s], q, asOf) == Some(s)
  {
    assert (snapshots + [s])[..|snapshots|] == snapshots;
  }

  /** What an index over a single printing qualifies under a rule on graded prices. */
  lemma SingleQualified(rule: Rule, p: Printing, snapshots: seq<Snapshot>, asOf: int)
    requires rule.graded == Psa10 && NamesLanguages(rule) && InScope(rule, p)
    ensures Qualified(rule, [p], snapshots, asOf)
      == if SoldPrice(snapshots, Query(p.id, rule.condition, Psa10), asOf).None? then [] else [Candidate(p.id, 1)]
  {
    assert [p][..0] == [];
    assert Judged(rule, [], snapshots, asOf) == [];
  }

  lemma FirstJoins(st: Store, c: Candidate, asOf: int)
    requires st.definition.Some? && st.rows == [] && Next(st, asOf) == [c]
    ensures var r := RebalanceStore(st, asOf).rows;
      |r| == 1 && r[0].printing == c.printing && r[0].since == asOf && r[0].to == None
  {
    var w := Weights([c], st.definition.value.weighting);
    assert CloseAll([], [c], asOf) == Outcome([], true);
    InsertOne([], [], c, w, asOf);
  }

  /** The psa10 rule reads a price, and a newer sale can hide it. From an empty index: a priced sale,
      a rebalance, a newer sale without a price dated no later than the rebalance; now the only member
      no longer qualifies, the next rebalance for that date fails, and the member stays. */
  lemma {:induction false} SameDateLeaveIsRefused(d: Definition, p: Printing, first: Snapshot, second: Snapshot, t: int)
    requires d.rule.graded == Psa10 && NamesLanguages(d.rule) && InScope(d.rule, p)
    requires Eligible(first, Query(p.id, d.rule.condition, Psa10), t) && first.price.Some?
    requires Eligible(second, Query(p.id, d.rule.condition, Psa10), t) && second.price.None?
    requires first.observedAt < second.observedAt
    ensures var end := Run(Store(Some(d), [p], [], []), [Observe(first), RebalanceAt(t), Observe(second)]);
      && Next(end, t) == []
      && !RebalanceStore(end, t).ok
      && IsMember(RebalanceStore(end, t).rows, p.id, t)
  {
    var q := Query(p.id, d.rule.condition, Psa10);
    var st0 := Store(Some(d), [p], [], []);
    var st1 := Step(st0, Observe(first));
    PriceOfNewest([], first, q, t);
    SingleQualified(d.rule, p, st1.snapshots, t);
    FirstJoins(st1, Candidate(p.id, 1), t);
    var st2 := Step(st1, RebalanceAt(t));
    var end := Step(st2, Observe(second));
    PriceOfNewest(st1.snapshots, second, q, t);
    SingleQualified(d.rule, p, end.snapshots, t);
    RunThree(st0, Observe(first), RebalanceAt(t), Observe(second));
    assert Refused(end.rows[0], [], t);
    CloseSucceeds(end.rows, [], t);
    StaysMember(end.rows, [], Weights([], d.weighting), t, 0);
  }

  // ----- Rebalances in any order of dates -----

  /** The condition that can be checked before a rebalance. */
  ghost predicate LeavesDisjoint(st: Store, a: Action) {
    a.RebalanceAt? && st.definition.Some? ==>
      Stuck(st.rows, Next(st, a.asOf), a.asOf) || !StartsLater(st.rows, Next(st, a.asOf), a.asOf)
  }

  lemma StepStaysDisjoint(st: Store, a: Action)
    requires DistinctPrintings(st.printings) && AllInRange(st.rows) && Disjoint(st.rows)
    ensures AllInRange(Step(st, a).rows)
    ensures Disjoint(Step(st, a).rows) <==> LeavesDisjoint(st, a)
  {
    if a.RebalanceAt? && st.definition.Some? {
      NextIsDistinct(st, a.asOf);
      var next, weighting := Next(st, a.asOf), st.definition.value.weighting;
      RebalanceKeepsRange(st.rows, next, Weights(next, weighting), a.asOf);
      RebalanceStaysDisjoint(st.rows, next, Weights(next, weighting), a.asOf);
    }
  }

  /** After any run that left the intervals disjoint, the next rebalance keeps them so exactly when
      it is refused or meets no newcomer with a row starting after its date. */
  lemma {:induction false} NextRebalanceStaysDisjoint(st: Store, actions: seq<Action>, asOf: int)
    requires st.definition.Some? && DistinctPrintings(st.printings) && AllInRange(st.rows)
    requires Disjoint(Run(st, actions).rows)
    ensures var end := Run(st, actions);
      Disjoint(RebalanceStore(end, asOf).rows)
      <==> Stuck(end.rows, Next(end, asOf), asOf) || !StartsLater(end.rows, Next(end, asOf), asOf)
  {
    RunsKeepRange(st, actions);
    StepStaysDisjoint(Run(st, actions), RebalanceAt(asOf));
  }

  /** Every step of the run finds the condition met. */
  ghost predicate AllLeaveDisjoint(st: Store, actions: seq<Action>)
    decreases |actions|
  {
    actions == [] || (LeavesDisjoint(st, actions[0]) && AllLeaveDisjoint(Step(st, actions[0]), actions[1..]))
  }

  ghost predicate DisjointThroughout(st: Store, actions: seq<Action>) {
    forall n: nat :: n <= |actions| ==> Disjoint(Run(st, actions[..n]).rows)
  }

  lemma {:induction false} RunOfPrefix(st: Store, actions: seq<Action>, n: nat)
    requires n < |actions|
    ensures Run(st, actions[..n + 1]) == Run(Step(st, actions[0]), actions[1..][..n])
  {
    assert actions[..n + 1][1..] == actions[1..][..n];
  }

  lemma ThroughoutUnfolds(st: Store, actions: seq<Action>)
    requires actions != []
    ensures DisjointThroughout(st, actions)
      <==> Disjoint(st.rows) && DisjointThroughout(Step(st, actions[0]), actions[1..])
  {
    var st', rest := Step(st, actions[0]), actions[1..];
    ThroughoutIsDisjoint(st, actions);
    if DisjointThroughout(st, actions) {
      forall n: nat | n <= |rest| ensures Disjoint(Run(st', rest[..n]).rows) {
        RunOfPrefix(st, actions, n);
        assert Disjoint(Run(st, actions[..n + 1]).rows);
      }
    }
    if Disjoint(st.rows) && DisjointThroughout(st', rest) {
      forall n: nat | n <= |actions| ensures Disjoint(Run(st, actions[..n]).rows) {
        if n > 0 {
          RunOfPrefix(st, actions, n - 1);
          assert Disjoint(Run(st', rest[..n - 1]).rows);
        }
      }
    }
  }

  lemma ThroughoutIsDisjoint(st: Store, actions: seq<Action>)
    ensures DisjointThroughout(st, actions) ==> Disjoint(st.rows)
  {
    assert actions[..0] == [];
    assert DisjointThroughout(st, actions) ==> Disjoint(Run(st, actions[..0]).rows);
  }

  /** Over any run, dates in any order: the intervals are disjoint after every step exactly when
      every rebalance that is not refused meets no newcomer with a row starting after its date. */
  lemma {:induction false} DisjointRuns(st: Store, actions: seq<Action>)
    requires DistinctPrintings(st.printings) && AllInRange(st.rows) && Disjoint(st.rows)
    ensures DisjointThroughout(st, actions) <==> AllLeaveDisjoint(st, actions)
    decreases |actions|
  {
    if actions == [] {
      assert forall n: nat :: n <= |actions| ==> actions[..n] == [];
    } else {
      ThroughoutUnfolds(st, actions);
      StepStaysDisjoint(st, actions[0]);
      if LeavesDisjoint(st, actions[0]) {
        DisjointRuns(Step(st, actions[0]), actions[1..]);
      } else {
        ThroughoutIsDisjoint(Step(st, actions[0]), actions[1..]);
      }
    }
  }

  /** One sale, in the windows of both dates. */
  predicate SellsInBoth(rule: Rule, p: Printing, s: Snapshot, earlier: int, t: int) {
    && rule.graded != Psa10 && NamesLanguages(rule) && InScope(rule, p)
    && rule.minSales <= 1.0 && rule.minHistory <= 1.0
    && Counts(s, p.id, rule.condition, earlier) && t - WINDOW_DAYS * MS_DAY < s.observedAt && earlier < t
  }

  lemma OneSaleQualifies(rule: Rule, p: Printing, s: Snapshot, earlier: int, t: int, asOf: int)
    requires SellsInBoth(rule, p, s, earlier, t) && earlier <= asOf <= t
    ensures Qualified(rule, [p], [s], asOf) == [Candidate(p.id, 1)]
  {
    assert [s] == [] + [s] && [p][..0] == [];
    CountsAppend([], s, p.id, rule.condition, asOf - WINDOW_DAYS * MS_DAY, asOf);
    assert Judged(rule, [], [s], asOf) == [];
  }

  lemma SecondOpens(st: Store, c: Candidate, earlier: int)
    requires st.definition.Some? && Next(st, earlier) == [c] && |st.rows| == 1
    requires st.rows[0].printing == c.printing && earlier < st.rows[0].since && st.rows[0].to == None
    ensures var r := RebalanceStore(st, earlier).rows;
      |r| == 2 && r[0] == st.rows[0] && r[1].printing == c.printing && r[1].to == None
  {
    CloseSucceeds(st.rows, [c], earlier);
    assert CloseAll(st.rows, [c], earlier) == Outcome(st.rows, true);
    InsertOne(st.rows, st.rows, c, Weights([c], st.definition.value.weighting), earlier);
  }

  /** A printing that qualifies at both of two dates, rebalanced for the later one first, ends with
      two open rows. */
  lemma {:induction false} EarlierRebalanceOverlaps(d: Definition, p: Printing, s: Snapshot, earlier: int, t: int)
    requires SellsInBoth(d.rule, p, s, earlier, t)
    ensures var end := Run(Store(Some(d), [p], [], []), [Observe(s), RebalanceAt(t), RebalanceAt(earlier)]);
      && InCandidates(Next(end, t), p.id) && InCandidates(Next(end, earlier), p.id)
      && |end.rows| == 2 && end.rows[0].printing == end.rows[1].printing == p.id
      && end.rows[0].to == end.rows[1].to == None && !Disjoint(end.rows)
  {
    var st := Step(Store(Some(d), [p], [], []), Observe(s));
    assert st.snapshots == [s];
    OneSaleQualifies(d.rule, p, s, earlier, t, t);
    OneSaleQualifies(d.rule, p, s, earlier, t, earlier);
    RunThree(Store(Some(d), [p], [], []), Observe(s), RebalanceAt(t), RebalanceAt(earlier));
    FirstJoins(st, Candidate(p.id, 1), t);
    SecondOpens(Step(st, RebalanceAt(t)), Candidate(p.id, 1), earlier);
    assert [Candidate(p.id, 1)][0].printing == p.id;
  }

  // ----- Stored weights -----

  ghost predicate WeightsStored(rows: seq<Member>) {
    forall i :: 0 <= i < |rows| ==> rows[i].weight >= 0.0
  }

  lemma {:induction false} InsertKeepsWeights(
      rows: seq<Member>, was: seq<Member>, next: seq<Candidate>, weights: map<PrintingId, real>, asOf: int)
    requires WeightsStored(rows) && forall id :: WeightOf(weights, id) >= 0.0
    ensures WeightsStored(InsertAll(rows, was, next, weights, asOf).rows)
  {
    if next != [] {
      InsertKeepsWeights(rows, was, next[..|next| - 1], weights, asOf);
      assert WeightOf(weights, next[|next| - 1].printing) >= 0.0;
    }
  }

  lemma StepKeepsWeights(st: Store, a: Action)
    requires WeightsStored(st.rows) && DistinctPrintings(st.printings)
    ensures WeightsStored(Step(st, a).rows)
  {
    if a.RebalanceAt? && st.definition.Some? {
      NextIsDistinct(st, a.asOf);
      var next, weighting := Next(st, a.asOf), st.definition.value.weighting;
      forall id ensures WeightOf(Weights(next, weighting), id) >= 0.0 {
        WeightsNonNegative(next, weighting, id);
      }
      InsertKeepsWeights(CloseAll(st.rows, next, a.asOf).rows, st.rows, next, Weights(next, weighting), a.asOf);
    }
  }

  lemma {:induction false} RunsKeepWeights(st: Store, actions: seq<Action>)
    requires WeightsStored(st.rows) && DistinctPrintings(st.printings)
    ensures WeightsStored(Run(st, actions).rows)
    decreases |actions|
  {
    if actions != [] {
      StepKeepsWeights(st, actions[0]);
      RunsKeepWeights(Step(st, actions[0]), actions[1..]);
    }
  }

  lemma {:induction false} ListedWeights(rows: seq<Member>, t: int)
    requires WeightsStored(rows)
    ensures forall i :: 0 <= i < |ListAsOf(rows, t)| ==> ListAsOf(rows, t)[i].weight >= 0.0
  {
    if rows != [] {
      ListedWeights(rows[..|rows| - 1], t);
    }
  }

  lemma {:induction false} PricedWeights(
      rule: Rule, snapshots: seq<Snapshot>, stints: seq<Stint>, inception: int, asOf: int)
    requires forall i :: 0 <= i < |stints| ==> stints[i].weight >= 0.0
    ensures NonNegative(PricedOf(rule, snapshots, stints, inception, asOf))
  {
    if stints != [] {
      PricedWeights(rule, snapshots, stints[..|stints| - 1], inception, asOf);
    }
  }

  /** In every reachable store the level at any time lies between 100 times the smallest and
      100 times the largest price relative of the priced members, exactly when some priced
      weight is positive or that range contains 100; renormalization makes up for stored
      weights that no longer sum to 1. */
  lemma {:induction false} ReachableLevelIsBounded(st: Store, actions: seq<Action>, t: int)
    requires st.rows == [] && st.definition.Some? && DistinctPrintings(st.printings)
    requires ListAsOf(Run(st, actions).rows, t) != []
    ensures var end := Run(st, actions);
      var stints := ListAsOf(end.rows, t);
      var ps := PricedOf(st.definition.value.rule, end.snapshots, stints, Inception(stints), t);
      && LevelAt(end, t).Some? && LevelAt(end, t).value.value == Value(ps)
      && (ps != [] ==>
            (BASE_VALUE * MinRel(ps) <= Value(ps) <= BASE_VALUE * MaxRel(ps)
             <==> WeightSum(ps) > 0.0 || MinRel(ps) <= 1.0 <= MaxRel(ps)))
  {
    RunsKeepWeights(st, actions);
    var end := Run(st, actions);
    var stints := ListAsOf(end.rows, t);
    ListedWeights(end.rows, t);
    var ps := PricedOf(st.definition.value.rule, end.snapshots, stints, Inception(stints), t);
    PricedWeights(st.definition.value.rule, end.snapshots, stints, Inception(stints), t);
    if ps != [] {
      LevelBetweenExtremes(ps);
    }
  }

  // ----- A level outside of its range -----

  lemma {:induction false} LatestSkips(snapshots: seq<Snapshot>, s: Snapshot, q: Query, asOf: int)
    requires !Eligible(s, q, asOf)
    ensures Latest(snapshots + [s], q, asOf) == Latest(snapshots, q, asOf)
  {
    assert (snapshots + [s])[..|snapshots|] == snapshots;
  }

  /** A member that sold in the last thirty days without a price, and one with a price whose sales are older. */
  ghost predicate SoldAndPriced(rule: Rule, a: Printing, b: Printing, sold: Snapshot, priced: Snapshot, t: int) {
    && rule.graded == Raw && NamesLanguages(rule) && InScope(rule, a) && InScope(rule, b) && a.id != b.id
    && rule.minSales == 0.0 && rule.minHistory <= 1.0
    && Eligible(sold, Query(a.id, rule.condition, Raw), t) && sold.price.None?
    && Eligible(priced, Query(b.id, rule.condition, Raw), t) && priced.price.Some?
    && priced.observedAt <= t - WINDOW_DAYS * MS_DAY < sold.observedAt
  }

  lemma {:induction false} CountsOfTwo(
      s1: Snapshot, s2: Snapshot, id: PrintingId, condition: string, since: int, asOf: int)
    ensures SalesCount([s1, s2], id, condition, since, asOf)
      == (if Counts(s1, id, condition, asOf) && since < s1.observedAt then 1 else 0)
       + (if Counts(s2, id, condition, asOf) && since < s2.observedAt then 1 else 0)
    ensures HistoryCount([s1, s2], id, condition, asOf)
      == (if Counts(s1, id, condition, asOf) then 1 else 0) + (if Counts(s2, id, condition, asOf) then 1 else 0)
  {
    assert [s1, s2] == [s1] + [s2] && [s1] == [] + [s1];
    CountsAppend([], s1, id, condition, since, asOf);
    CountsAppend([s1], s2, id, condition, since, asOf);
  }

  lemma BothQualify(rule: Rule, a: Printing, b: Printing, sold: Snapshot, priced: Snapshot, t: int)
    requires SoldAndPriced(rule, a, b, sold, priced, t)
    ensures Qualified(rule, [a, b], [sold, priced], t) == [Candidate(a.id, 1), Candidate(b.id, 0)]
  {
    CountsOfTwo(sold, priced, a.id, rule.condition, t - WINDOW_DAYS * MS_DAY, t);
    CountsOfTwo(sold, priced, b.id, rule.condition, t - WINDOW_DAYS * MS_DAY, t);
    assert [a, b][..1] == [a] && [a][..0] == [];
    assert Judged(rule, [], [sold, priced], t) == [];
    assert Judged(rule, [a], [sold, priced], t) == [Candidate(a.id, 1)];
  }

  lemma BothJoinWithSales(a: PrintingId, b: PrintingId, t: int)
    requires a != b
    ensures var next := [Candidate(a, 1), Candidate(b, 0)];
      Rebalance([], next, Weights(next, Liquidity), t).rows == [Member(a, t, None, 1.0), Member(b, t, None, 0.0)]
  {
    var next := [Candidate(a, 1), Candidate(b, 0)];
    assert next[..1] == [Candidate(a, 1)] && [Candidate(a, 1)][..0] == [];
    assert TotalSales([Candidate(a, 1)]) == 1;
    assert TotalSales(next) == 1;
    WeightIsShare(next, Liquidity, 2, 0);
    WeightIsShare(next, Liquidity, 2, 1);
    BothJoin(next[0], next[1], Weights(next, Liquidity), t);
  }

  lemma {:induction false} PricesRead(
      rule: Rule, a: Printing, b: Printing, sold: Snapshot, priced: Snapshot, later: Snapshot, t: int, t': int)
    requires SoldAndPriced(rule, a, b, sold, priced, t)
    requires Eligible(later, Query(b.id, rule.condition, Raw), t') && t < later.observedAt
    ensures SoldPrice([sold, priced, later], Query(a.id, rule.condition, Raw), t).None?
    ensures Latest([sold, priced, later], Query(b.id, rule.condition, Raw), t) == Some(priced)
    ensures Latest([sold, priced, later], Query(b.id, rule.condition, Raw), t') == Some(later)
  {
    var qa, qb := Query(a.id, rule.condition, Raw), Query(b.id, rule.condition, Raw);
    assert [sold, priced, later] == [sold, priced] + [later];
    assert [sold, priced] == [sold] + [priced] && [sold] == [] + [sold];
    PriceOfNewest([], sold, qa, t);
    LatestSkips([sold], priced, qa, t);
    LatestSkips([sold, priced], later, qa, t);
    LatestSkips([], sold, qb, t);
    PriceOfNewest([sold], priced, qb, t);
    LatestSkips([sold, priced], later, qb, t);
    LatestSkips([], sold, qb, t');
    PriceOfNewest([sold], priced, qb, t');
    PriceOfNewest([sold, priced], later, qb, t');
  }

  /** Only the second of two members is priced, and its weight is zero. */
  lemma {:induction false} OnlyWeightless(
      rule: Rule, a: Printing, b: Printing, sold: Snapshot, priced: Snapshot, later: Snapshot, t: int, t': int)
    requires SoldAndPriced(rule, a, b, sold, priced, t)
    requires Eligible(later, Query(b.id, rule.condition, Raw), t') && t < later.observedAt
    requires later.price.Some? && later.currency == priced.currency && priced.price.value > 0.0
    ensures PricedOf(rule, [sold, priced, later], [Stint(a.id, t, 1.0), Stint(b.id, t, 0.0)], t, t')
      == [Priced(0.0, later.price.value / priced.price.value)]
  {
    var snapshots := [sold, priced, later];
    var first, second := Stint(a.id, t, 1.0), Stint(b.id, t, 0.0);
    PricesRead(rule, a, b, sold, priced, later, t, t');
    assert [first, second][..1] == [first] && [first][..0] == [];
    assert PricedOf(rule, snapshots, [], t, t') == [];
    assert PricedOf(rule, snapshots, [first], t, t') == [];
  }

  lemma InceptionOfTwo(first: Stint, second: Stint)
    requires first.since == second.since
    ensures Inception([first, second]) == first.since
  {
    assert [first, second][..1] == [first];
  }

  lemma WeightlessValue(rel: real)
    requires rel != 1.0
    ensures Value([Priced(0.0, rel)]) == BASE_VALUE
    ensures !(BASE_VALUE * MinRel([Priced(0.0, rel)]) <= BASE_VALUE <= BASE_VALUE * MaxRel([Priced(0.0, rel)]))
  {
    var p := Priced(0.0, rel);
    assert [p][..0] == [] && WeightSum([p]) == 0.0;
  }

  /** Weighting by liquidity with no minimum of sales: a member whose only sale in the window has no
      price, and a member without a sale in the window, whose weight is zero. Once the price of the
      second moves, the level stays at 100, outside of the range of the relatives. */
  lemma {:induction false} WeightlessLevelIgnoresPrices(
      rule: Rule, a: Printing, b: Printing, sold: Snapshot, priced: Snapshot, later: Snapshot, t: int, t': int)
    requires SoldAndPriced(rule, a, b, sold, priced, t)
    requires Eligible(later, Query(b.id, rule.condition, Raw), t') && t < later.observedAt
    requires later.price.Some? && later.currency == priced.currency && priced.price.value > 0.0
    requires later.price != priced.price
    ensures var actions := [Observe(sold), Observe(priced), RebalanceAt(t), Observe(later)];
      var end := Run(Store(Some(Definition(rule, Liquidity)), [a, b], [], []), actions);
      var stints := ListAsOf(end.rows, t');
      && stints != []
      && var ps := PricedOf(rule, end.snapshots, stints, Inception(stints), t');
      && LevelAt(end, t').Some? && LevelAt(end, t').value.value == BASE_VALUE
      && |ps| == 1 && !(BASE_VALUE * MinRel(ps) <= BASE_VALUE <= BASE_VALUE * MaxRel(ps))
  {
    var st := Store(Some(Definition(rule, Liquidity)), [a, b], [], []);
    var st2 := Step(Step(st, Observe(sold)), Observe(priced));
    assert st2.snapshots == [sold, priced];
    BothQualify(rule, a, b, sold, priced, t);
    BothJoinWithSales(a.id, b.id, t);
    var ma, mb := Member(a.id, t, None, 1.0), Member(b.id, t, None, 0.0);
    var end := Step(Step(st2, RebalanceAt(t)), Observe(later));
    RunFour(st, Observe(sold), Observe(priced), RebalanceAt(t), Observe(later));
    assert end.rows == [ma, mb];
    assert end.snapshots == [sold, priced, later];
    ListOfTwo(ma, mb, t');
    InceptionOfTwo(Stint(a.id, t, 1.0), Stint(b.id, t, 0.0));
    OnlyWeightless(rule, a, b, sold, priced, later, t, t');
    FactorIsOne(priced.price.value, later.price.value);
    WeightlessValue(later.price.value / priced.price.value);
  }

  lemma FactorIsOne(base: real, current: real)
    requires base > 0.0
    ensures current / base == 1.0 <==> current == base
  {
    assert current == (current / base) * base;
  }
}
