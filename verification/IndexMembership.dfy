/** Effective-dated membership of an index and its rebalancing
    (packages/db/src/analytics/index-engine.ts). */
module IndexMembership {
  import opened Common
  import opened MarketHistory

  /** One membership row: in the index from `since` until `to`, open while `to` is absent. */
  datatype Member = Member(printing: PrintingId, since: int, to: Option<int>, weight: real)

  predicate ActiveAt(m: Member, t: int) {
    m.since <= t && (m.to.None? || m.to.value > t)
  }

  /** What a reader at a time sees of a row: everything but its end. */
  datatype Stint = Stint(printing: PrintingId, since: int, weight: real)

  function ListAsOf(rows: seq<Member>, t: int): seq<Stint> {
    if rows == [] then []
    else
      var m := rows[|rows| - 1];
      ListAsOf(rows[..|rows| - 1], t) + if ActiveAt(m, t) then [Stint(m.printing, m.since, m.weight)] else []
  }

  predicate IsMember(rows: seq<Member>, id: PrintingId, t: int) {
    exists i :: 0 <= i < |rows| && rows[i].printing == id && ActiveAt(rows[i], t)
  }

  // ----- Specification of a rebalance -----

  /** A rebalance or a part of it: the rows it leaves, and whether it ran to its end. */
  datatype Outcome = Outcome(rows: seq<Member>, ok: bool)

  /** A current open row whose printing no longer qualifies. */
  predicate Leaves(m: Member, next: seq<Candidate>, asOf: int) {
    ActiveAt(m, asOf) && !InCandidates(next, m.printing) && m.to.None?
  }

  /** The table refuses an end that does not lie after the start. */
  predicate Refused(m: Member, next: seq<Candidate>, asOf: int) {
    Leaves(m, next, asOf) && m.since >= asOf
  }

  function CloseOne(m: Member, next: seq<Candidate>, asOf: int): Member {
    if Leaves(m, next, asOf) && m.since < asOf then m.(to := Some(asOf)) else m
  }

  /** Leavers are closed in the order of their starts. So a refused close, which ends the loop,
      comes after all those that the table admits. */
  function CloseAll(rows: seq<Member>, next: seq<Candidate>, asOf: int): (r: Outcome)
    ensures |r.rows| == |rows|
    ensures forall i :: 0 <= i < |rows| ==> r.rows[i] == CloseOne(rows[i], next, asOf)
  {
    if rows == [] then Outcome([], true)
    else
      var before := CloseAll(rows[..|rows| - 1], next, asOf);
      var m := rows[|rows| - 1];
      Outcome(before.rows + [CloseOne(m, next, asOf)], before.ok && !Refused(m, next, asOf))
  }

  /** The unique index on (printing, start). */
  predicate Taken(rows: seq<Member>, id: PrintingId, since: int) {
    exists i :: 0 <= i < |rows| && rows[i].printing == id && rows[i].since == since
  }

  function WeightOf(weights: map<PrintingId, real>, id: PrintingId): real {
    if id in weights then weights[id] else 0.0
  }

  /** Newcomers open an interval at the rebalance time; a violated unique index stops the loop
      and leaves the rows inserted before it. */
  function InsertAll(
      rows: seq<Member>, was: seq<Member>, next: seq<Candidate>, weights: map<PrintingId, real>,
      asOf: int): (r: Outcome)
  {
    if next == [] then Outcome(rows, true)
    else
      var before := InsertAll(rows, was, next[..|next| - 1], weights, asOf);
      var id := next[|next| - 1].printing;
      if !before.ok || IsMember(was, id, asOf) then before
      else if Taken(before.rows, id, asOf) then Outcome(before.rows, false)
      else Outcome(before.rows + [Member(id, asOf, None, WeightOf(weights, id))], true)
  }

  lemma {:induction false} InsertStep(
      rows: seq<Member>, was: seq<Member>, next: seq<Candidate>, weights: map<PrintingId, real>, asOf: int, i: nat)
    requires i < |next|
    ensures var before := InsertAll(rows, was, next[..i], weights, asOf);
      var id := next[i].printing;
      InsertAll(rows, was, next[..i + 1], weights, asOf)
      == if !before.ok || IsMember(was, id, asOf) then before
         else if Taken(before.rows, id, asOf) then Outcome(before.rows, false)
         else Outcome(before.rows + [Member(id, asOf, None, WeightOf(weights, id))], true)
  {
    assert next[..i + 1][..i] == next[..i];
  }

  function Rebalance(rows: seq<Member>, next: seq<Candidate>, weights: map<PrintingId, real>, asOf: int): Outcome {
    var closed := CloseAll(rows, next, asOf);
    if closed.ok then InsertAll(closed.rows, rows, next, weights, asOf) else closed
  }

  // ----- The past is immutable -----

  lemma {:induction false} ListAppend(rows: seq<Member>, m: Member, t: int)
    ensures ListAsOf(rows + [m], t)
      == ListAsOf(rows, t) + if ActiveAt(m, t) then [Stint(m.printing, m.since, m.weight)] else []
  {
    assert (rows + [m])[..|rows|] == rows;
  }

  lemma {:induction false} ClosingKeepsEarlier(rows: seq<Member>, next: seq<Candidate>, asOf: int, t: int)
    requires t < asOf
    ensures ListAsOf(CloseAll(rows, next, asOf).rows, t) == ListAsOf(rows, t)
  {
    if rows != [] {
      var front, m := rows[..|rows| - 1], rows[|rows| - 1];
      ClosingKeepsEarlier(front, next, asOf, t);
      ListAppend(CloseAll(front, next, asOf).rows, CloseOne(m, next, asOf), t);
    }
  }

  lemma {:induction false} InsertingKeepsEarlier(
      rows: seq<Member>, was: seq<Member>, next: seq<Candidate>, weights: map<PrintingId, real>, asOf: int, t: int)
    requires t < asOf
    ensures ListAsOf(InsertAll(rows, was, next, weights, asOf).rows, t) == ListAsOf(rows, t)
  {
    if next != [] {
      var front, id := next[..|next| - 1], next[|next| - 1].printing;
      InsertingKeepsEarlier(rows, was, front, weights, asOf, t);
      ListAppend(InsertAll(rows, was, front, weights, asOf).rows, Member(id, asOf, None, WeightOf(weights, id)), t);
    }
  }

  /** A rebalance, complete or cut short, leaves the membership seen at every earlier time
      as it was, whatever the rows and in whatever order rebalances came. */
  lemma {:induction false} RebalanceKeepsEarlier(
      rows: seq<Member>, next: seq<Candidate>, weights: map<PrintingId, real>, asOf: int, t: int)
    requires t < asOf
    ensures ListAsOf(Rebalance(rows, next, weights, asOf).rows, t) == ListAsOf(rows, t)
  {
    ClosingKeepsEarlier(rows, next, asOf, t);
    InsertingKeepsEarlier(CloseAll(rows, next, asOf).rows, rows, next, weights, asOf, t);
  }

  // ----- Intervals -----

  /** One of the two ended before, or when, the other began. */
  predicate Apart(a: Member, b: Member) {
    a.printing == b.printing ==>
      (a.to.Some? && a.to.value <= b.since) || (b.to.Some? && b.to.value <= a.since)
  }

  ghost predicate Disjoint(rows: seq<Member>) {
    forall i, j :: 0 <= i < j < |rows| ==> Apart(rows[i], rows[j])
  }

  /** The table's range constraint: an end lies after its start. */
  predicate InRange(m: Member) {
    m.to.Some? ==> m.since < m.to.value
  }

  ghost predicate AllInRange(rows: seq<Member>) {
    forall i :: 0 <= i < |rows| ==> InRange(rows[i])
  }

  /** Every interval lies in the past of `now`. */
  predicate Settled(m: Member, now: int) {
    InRange(m) && m.since <= now && (m.to.Some? ==> m.to.value <= now)
  }

  ghost predicate AllSettled(rows: seq<Member>, now: int) {
    forall i :: 0 <= i < |rows| ==> Settled(rows[i], now)
  }

  ghost predicate Sound(rows: seq<Member>, now: int) {
    Disjoint(rows) && AllSettled(rows, now)
  }

  lemma {:induction false} ClosingKeepsSound(rows: seq<Member>, next: seq<Candidate>, now: int, asOf: int)
    requires Sound(rows, now) && now <= asOf
    ensures Sound(CloseAll(rows, next, asOf).rows, asOf)
  {
    var r := CloseAll(rows, next, asOf).rows;
    forall i, j | 0 <= i < j < |r| ensures Apart(r[i], r[j]) {
      assert Apart(rows[i], rows[j]) && Settled(rows[i], now) && Settled(rows[j], now);
    }
    forall i | 0 <= i < |r| ensures Settled(r[i], asOf) {
      assert Settled(rows[i], now);
    }
  }

  /** No row of `id` reaches past `asOf`. */
  ghost predicate Ended(rows: seq<Member>, id: PrintingId, asOf: int) {
    forall i :: 0 <= i < |rows| && rows[i].printing == id ==> rows[i].to.Some?
  }

  lemma OpeningKeepsSound(rows: seq<Member>, id: PrintingId, weight: real, asOf: int)
    requires Sound(rows, asOf) && Ended(rows, id, asOf)
    ensures Sound(rows + [Member(id, asOf, None, weight)], asOf)
  {
    var m := Member(id, asOf, None, weight);
    var r := rows + [m];
    forall i, j | 0 <= i < j < |r| ensures Apart(r[i], r[j]) {
      assert Settled(r[i], asOf);
      if j < |rows| { assert Apart(rows[i], rows[j]); }
    }
  }

  lemma {:induction false} NonMemberEnded(rows: seq<Member>, next: seq<Candidate>, id: PrintingId, now: int, asOf: int)
    requires AllSettled(rows, now) && now <= asOf && !IsMember(rows, id, asOf)
    ensures Ended(CloseAll(rows, next, asOf).rows, id, asOf)
  {
    var r := CloseAll(rows, next, asOf).rows;
    forall i | 0 <= i < |r| && r[i].printing == id ensures r[i].to.Some? {
      assert Settled(rows[i], now);
      assert !ActiveAt(rows[i], asOf);
    }
  }

  /** Inserting adds rows only for the candidates handled so far. */
  lemma {:induction false} InsertedOnly(
      rows: seq<Member>, was: seq<Member>, next: seq<Candidate>, weights: map<PrintingId, real>, asOf: int)
    ensures var r := InsertAll(rows, was, next, weights, asOf).rows;
      rows <= r && forall i :: |rows| <= i < |r| ==>
        && InCandidates(next, r[i].printing) && !IsMember(was, r[i].printing, asOf)
        && r[i].since == asOf && r[i].to == None
  {
    if next != [] {
      var front := next[..|next| - 1];
      InsertedOnly(rows, was, front, weights, asOf);
      var b := InsertAll(rows, was, front, weights, asOf).rows;
      forall i | |rows| <= i < |b| ensures InCandidates(next, b[i].printing) {
        var k :| 0 <= k < |front| && front[k].printing == b[i].printing;
        assert next[k].printing == b[i].printing;
      }
      assert next[|next| - 1].printing == next[|next| - 1].printing;
    }
  }

  lemma LastIsNew(next: seq<Candidate>)
    requires next != [] && DistinctCandidates(next)
    ensures !InCandidates(next[..|next| - 1], next[|next| - 1].printing)
  {
    var front := next[..|next| - 1];
    forall k | 0 <= k < |front| ensures front[k].printing != next[|next| - 1].printing {
      assert next[k].printing != next[|next| - 1].printing;
    }
  }

  lemma {:induction false} InsertingKeepsSound(
      rows: seq<Member>, was: seq<Member>, next: seq<Candidate>, weights: map<PrintingId, real>, asOf: int)
    requires Sound(rows, asOf) && DistinctCandidates(next)
    requires forall id :: !IsMember(was, id, asOf) ==> Ended(rows, id, asOf)
    ensures Sound(InsertAll(rows, was, next, weights, asOf).rows, asOf)
  {
    if next != [] {
      var front, id := next[..|next| - 1], next[|next| - 1].printing;
      InsertingKeepsSound(rows, was, front, weights, asOf);
      InsertedOnly(rows, was, front, weights, asOf);
      LastIsNew(next);
      var b := InsertAll(rows, was, front, weights, asOf).rows;
      if !IsMember(was, id, asOf) {
        assert Ended(b, id, asOf) by {
          forall i | 0 <= i < |b| && b[i].printing == id ensures b[i].to.Some? {
            assert Ended(rows, id, asOf);
          }
        }
        OpeningKeepsSound(b, id, WeightOf(weights, id), asOf);
      }
    }
  }

  /** A rebalance no earlier than the previous one keeps every printing's intervals pairwise disjoint. */
  lemma RebalanceKeepsSound(
      rows: seq<Member>, next: seq<Candidate>, weights: map<PrintingId, real>, now: int, asOf: int)
    requires Sound(rows, now) && now <= asOf && DistinctCandidates(next)
    ensures Sound(Rebalance(rows, next, weights, asOf).rows, asOf)
  {
    ClosingKeepsSound(rows, next, now, asOf);
    forall id | !IsMember(rows, id, asOf) ensures Ended(CloseAll(rows, next, asOf).rows, id, asOf) {
      NonMemberEnded(rows, next, id, now, asOf);
    }
    InsertingKeepsSound(CloseAll(rows, next, asOf).rows, rows, next, weights, asOf);
  }

  /** Disjoint intervals: at most one is open, and at most one holds any given time. */
  lemma AtMostOneOpen(rows: seq<Member>, i: int, j: int, t: int)
    requires Disjoint(rows) && 0 <= i < j < |rows| && rows[i].printing == rows[j].printing
    ensures rows[i].to.Some? || rows[j].to.Some?
    ensures !(ActiveAt(rows[i], t) && ActiveAt(rows[j], t))
  {
    assert Apart(rows[i], rows[j]);
  }

  // ----- What the table refuses -----

  /** A leaver that joined at the rebalance time itself: the table refuses to close it. */
  ghost predicate Stuck(rows: seq<Member>, next: seq<Candidate>, asOf: int) {
    exists i :: 0 <= i < |rows| && Refused(rows[i], next, asOf)
  }

  /** The close loop runs to its end exactly when no leaver joined at the rebalance time. */
  lemma {:induction false} CloseSucceeds(rows: seq<Member>, next: seq<Candidate>, asOf: int)
    ensures CloseAll(rows, next, asOf).ok <==> !Stuck(rows, next, asOf)
  {
    if rows != [] {
      var front, m := rows[..|rows| - 1], rows[|rows| - 1];
      CloseSucceeds(front, next, asOf);
      StuckAppends(front, m, next, asOf);
      assert rows == front + [m];
    }
  }

  lemma StuckAppends(front: seq<Member>, m: Member, next: seq<Candidate>, asOf: int)
    ensures Stuck(front + [m], next, asOf) <==> Stuck(front, next, asOf) || Refused(m, next, asOf)
  {
    var rows := front + [m];
    if Stuck(front, next, asOf) {
      var i :| 0 <= i < |front| && Refused(front[i], next, asOf);
      assert rows[i] == front[i];
    }
    assert rows[|front|] == m;
  }

  lemma TakenBefore(
      rows: seq<Member>, was: seq<Member>, next: seq<Candidate>, weights: map<PrintingId, real>, asOf: int)
    requires next != [] && DistinctCandidates(next)
    ensures var id := next[|next| - 1].printing;
      Taken(InsertAll(rows, was, next[..|next| - 1], weights, asOf).rows, id, asOf) <==> Taken(rows, id, asOf)
  {
    var front, id := next[..|next| - 1], next[|next| - 1].printing;
    InsertedOnly(rows, was, front, weights, asOf);
    LastIsNew(next);
    var b := InsertAll(rows, was, front, weights, asOf).rows;
    if Taken(rows, id, asOf) {
      var i :| 0 <= i < |rows| && rows[i].printing == id && rows[i].since == asOf;
      assert b[i] == rows[i];
    }
    if Taken(b, id, asOf) {
      var i :| 0 <= i < |b| && b[i].printing == id && b[i].since == asOf;
      assert i < |rows| && rows[i] == b[i];
    }
  }

  /** The insert loop completes exactly when no newcomer finds its start taken. */
  lemma {:induction false} InsertSucceeds(
      rows: seq<Member>, was: seq<Member>, next: seq<Candidate>, weights: map<PrintingId, real>, asOf: int)
    requires DistinctCandidates(next)
    ensures InsertAll(rows, was, next, weights, asOf).ok <==>
      forall k :: 0 <= k < |next| ==> IsMember(was, next[k].printing, asOf) || !Taken(rows, next[k].printing, asOf)
  {
    if next != [] {
      InsertSucceeds(rows, was, next[..|next| - 1], weights, asOf);
      TakenBefore(rows, was, next, weights, asOf);
    }
  }

  /** Where the range constraint holds, a row that starts at a time is active then; so no newcomer
      finds its start taken, and the unique index never refuses an insert. */
  lemma {:induction false} InsertsNeverRefused(
      rows: seq<Member>, next: seq<Candidate>, weights: map<PrintingId, real>, asOf: int)
    requires AllInRange(rows) && DistinctCandidates(next)
    ensures InsertAll(CloseAll(rows, next, asOf).rows, rows, next, weights, asOf).ok
  {
    var closed := CloseAll(rows, next, asOf).rows;
    InsertSucceeds(closed, rows, next, weights, asOf);
    forall k | 0 <= k < |next| && Taken(closed, next[k].printing, asOf) ensures IsMember(rows, next[k].printing, asOf) {
      var i :| 0 <= i < |closed| && closed[i].printing == next[k].printing && closed[i].since == asOf;
      assert InRange(rows[i]);
      assert rows[i].printing == next[k].printing && ActiveAt(rows[i], asOf);
    }
  }

  /** A rebalance in any order, complete or cut short, keeps the range constraint. */
  lemma RebalanceKeepsRange(rows: seq<Member>, next: seq<Candidate>, weights: map<PrintingId, real>, asOf: int)
    requires AllInRange(rows)
    ensures AllInRange(Rebalance(rows, next, weights, asOf).rows)
  {
    var closed := CloseAll(rows, next, asOf).rows;
    forall i | 0 <= i < |closed| ensures InRange(closed[i]) {
      assert InRange(rows[i]);
    }
    InsertedOnly(closed, rows, next, weights, asOf);
  }

  // ----- Membership right after a rebalance -----

  /** The members at `t` are exactly the printings in `next`. */
  ghost predicate MembersAre(rows: seq<Member>, next: seq<Candidate>, t: int) {
    forall id :: IsMember(rows, id, t) <==> InCandidates(next, id)
  }

  /** A row that already ends after the rebalance time, of a printing that does not qualify: the
      rebalance does not touch it. */
  ghost predicate Lingering(rows: seq<Member>, next: seq<Candidate>, asOf: int) {
    exists i :: 0 <= i < |rows| && ActiveAt(rows[i], asOf) && rows[i].to.Some? && !InCandidates(next, rows[i].printing)
  }

  lemma {:induction false} ClosedMembers(rows: seq<Member>, next: seq<Candidate>, asOf: int, id: PrintingId)
    requires !Stuck(rows, next, asOf) && !Lingering(rows, next, asOf)
    ensures IsMember(CloseAll(rows, next, asOf).rows, id, asOf) <==> IsMember(rows, id, asOf) && InCandidates(next, id)
  {
    CloseSucceeds(rows, next, asOf);
    var r := CloseAll(rows, next, asOf).rows;
    if IsMember(r, id, asOf) {
      var i :| 0 <= i < |r| && r[i].printing == id && ActiveAt(r[i], asOf);
      assert rows[i].printing == id && ActiveAt(rows[i], asOf);
      assert r[i] == CloseOne(rows[i], next, asOf);
    }
    if IsMember(rows, id, asOf) && InCandidates(next, id) {
      var i :| 0 <= i < |rows| && rows[i].printing == id && ActiveAt(rows[i], asOf);
      assert r[i] == rows[i];
    }
  }

  lemma MemberAppend(rows: seq<Member>, m: Member, id: PrintingId, t: int)
    ensures IsMember(rows + [m], id, t) <==> IsMember(rows, id, t) || (m.printing == id && ActiveAt(m, t))
  {
    var r := rows + [m];
    if IsMember(rows, id, t) {
      var i :| 0 <= i < |rows| && rows[i].printing == id && ActiveAt(rows[i], t);
      assert r[i] == rows[i];
    }
    assert r[|rows|] == m;
  }

  lemma {:induction false} InsertedMembers(
      rows: seq<Member>, was: seq<Member>, next: seq<Candidate>, weights: map<PrintingId, real>, asOf: int,
      id: PrintingId)
    requires InsertAll(rows, was, next, weights, asOf).ok
    ensures IsMember(InsertAll(rows, was, next, weights, asOf).rows, id, asOf)
      <==> IsMember(rows, id, asOf) || (InCandidates(next, id) && !IsMember(was, id, asOf))
  {
    if next != [] {
      var front, newcomer := next[..|next| - 1], next[|next| - 1].printing;
      InsertedMembers(rows, was, front, weights, asOf, id);
      CandidateAppend(front, next[|next| - 1], id);
      assert front + [next[|next| - 1]] == next;
      var row := Member(newcomer, asOf, None, WeightOf(weights, newcomer));
      MemberAppend(InsertAll(rows, was, front, weights, asOf).rows, row, id, asOf);
    }
  }

  /** A row that is kept as it is stays listed. */
  lemma StaysMember(rows: seq<Member>, next: seq<Candidate>, weights: map<PrintingId, real>, asOf: int, i: nat)
    requires i < |rows| && ActiveAt(rows[i], asOf) && (rows[i].to.Some? || rows[i].since >= asOf)
    ensures IsMember(Rebalance(rows, next, weights, asOf).rows, rows[i].printing, asOf)
  {
    var closed := CloseAll(rows, next, asOf).rows;
    assert closed[i] == rows[i];
    InsertedOnly(closed, rows, next, weights, asOf);
    assert Rebalance(rows, next, weights, asOf).rows[i] == rows[i];
  }

  /** For any rows the table admits and any rebalance time: the rebalance runs to its end exactly
      when no leaver joined at that very time, and the members are then exactly the qualified
      printings, unless a row that already ends later keeps another printing in. */
  lemma MembersAreQualified(rows: seq<Member>, next: seq<Candidate>, weights: map<PrintingId, real>, asOf: int)
    requires AllInRange(rows) && DistinctCandidates(next)
    ensures Rebalance(rows, next, weights, asOf).ok <==> !Stuck(rows, next, asOf)
    ensures MembersAre(Rebalance(rows, next, weights, asOf).rows, next, asOf)
      <==> !Stuck(rows, next, asOf) && !Lingering(rows, next, asOf)
  {
    CloseSucceeds(rows, next, asOf);
    InsertsNeverRefused(rows, next, weights, asOf);
    if Stuck(rows, next, asOf) {
      var i :| 0 <= i < |rows| && Refused(rows[i], next, asOf);
      StaysMember(rows, next, weights, asOf, i);
    } else if Lingering(rows, next, asOf) {
      var i :| 0 <= i < |rows| && ActiveAt(rows[i], asOf) && rows[i].to.Some? && !InCandidates(next, rows[i].printing);
      StaysMember(rows, next, weights, asOf, i);
    } else {
      forall id ensures IsMember(Rebalance(rows, next, weights, asOf).rows, id, asOf) <==> InCandidates(next, id) {
        ClosedMembers(rows, next, asOf, id);
        InsertedMembers(CloseAll(rows, next, asOf).rows, rows, next, weights, asOf, id);
      }
    }
  }

  /** Rows of the past leave nothing lingering. */
  lemma NothingLingers(rows: seq<Member>, next: seq<Candidate>, now: int, asOf: int)
    requires AllSettled(rows, now) && now <= asOf
    ensures AllInRange(rows) && !Lingering(rows, next, asOf)
  {
    forall i | 0 <= i < |rows| ensures InRange(rows[i]) && (rows[i].to.Some? ==> !ActiveAt(rows[i], asOf)) {
      assert Settled(rows[i], now);
    }
  }

  lemma {:induction false} InsertOne(
      rows: seq<Member>, was: seq<Member>, c: Candidate, weights: map<PrintingId, real>, asOf: int)
    ensures InsertAll(rows, was, [c], weights, asOf)
      == if IsMember(was, c.printing, asOf) then Outcome(rows, true)
         else if Taken(rows, c.printing, asOf) then Outcome(rows, false)
         else Outcome(rows + [Member(c.printing, asOf, None, WeightOf(weights, c.printing))], true)
  {
    var next := [c];
    assert next[..|next| - 1] == [];
    assert next[|next| - 1] == c;
    assert InsertAll(rows, was, [], weights, asOf) == Outcome(rows, true);
  }

  // ----- Disjoint after a rebalance for any date -----

  /** A row of `id` that starts after the rebalance date. */
  ghost predicate HasLater(rows: seq<Member>, id: PrintingId, asOf: int) {
    exists i :: 0 <= i < |rows| && rows[i].printing == id && rows[i].since > asOf
  }

  /** A newcomer that already has a row starting after the rebalance date. */
  ghost predicate StartsLater(rows: seq<Member>, next: seq<Candidate>, asOf: int) {
    exists k :: 0 <= k < |next| && !IsMember(rows, next[k].printing, asOf) && HasLater(rows, next[k].printing, asOf)
  }

  /** All rows of `id` end by the rebalance date. */
  ghost predicate Past(rows: seq<Member>, id: PrintingId, asOf: int) {
    forall i :: 0 <= i < |rows| && rows[i].printing == id ==> rows[i].to.Some? && rows[i].to.value <= asOf
  }

  lemma {:induction false} ClosingKeepsDisjoint(rows: seq<Member>, next: seq<Candidate>, asOf: int)
    requires Disjoint(rows)
    ensures Disjoint(CloseAll(rows, next, asOf).rows)
  {
    var r := CloseAll(rows, next, asOf).rows;
    forall i, j | 0 <= i < j < |r| ensures Apart(r[i], r[j]) {
      assert Apart(rows[i], rows[j]);
    }
  }

  lemma {:induction false} NewcomerIsPast(rows: seq<Member>, next: seq<Candidate>, id: PrintingId, asOf: int)
    requires !IsMember(rows, id, asOf) && !HasLater(rows, id, asOf)
    ensures Past(CloseAll(rows, next, asOf).rows, id, asOf)
  {
    var r := CloseAll(rows, next, asOf).rows;
    forall i | 0 <= i < |r| && r[i].printing == id ensures r[i].to.Some? && r[i].to.value <= asOf {
      assert rows[i].printing == id && rows[i].since <= asOf;
      assert !ActiveAt(rows[i], asOf);
    }
  }

  lemma OpeningKeepsDisjoint(rows: seq<Member>, id: PrintingId, weight: real, asOf: int)
    requires Disjoint(rows) && Past(rows, id, asOf)
    ensures Disjoint(rows + [Member(id, asOf, None, weight)])
  {
    var r := rows + [Member(id, asOf, None, weight)];
    forall i, j | 0 <= i < j < |r| ensures Apart(r[i], r[j]) {
      if j < |rows| { assert Apart(rows[i], rows[j]); }
    }
  }

  lemma {:induction false} InsertingKeepsDisjoint(
      rows: seq<Member>, was: seq<Member>, next: seq<Candidate>, weights: map<PrintingId, real>, asOf: int)
    requires Disjoint(rows) && DistinctCandidates(next)
    requires forall k :: 0 <= k < |next| && !IsMember(was, next[k].printing, asOf) ==>
      Past(rows, next[k].printing, asOf)
    ensures Disjoint(InsertAll(rows, was, next, weights, asOf).rows)
  {
    if next != [] {
      var front, id := next[..|next| - 1], next[|next| - 1].printing;
      InsertingKeepsDisjoint(rows, was, front, weights, asOf);
      if !IsMember(was, id, asOf) {
        InsertedOnly(rows, was, front, weights, asOf);
        LastIsNew(next);
        var b := InsertAll(rows, was, front, weights, asOf).rows;
        assert Past(rows, id, asOf);
        assert Past(b, id, asOf);
        OpeningKeepsDisjoint(b, id, WeightOf(weights, id), asOf);
      }
    }
  }

  lemma {:induction false} NewcomerStored(
      rows: seq<Member>, was: seq<Member>, next: seq<Candidate>, weights: map<PrintingId, real>, asOf: int, k: nat)
    requires k < |next| && InsertAll(rows, was, next, weights, asOf).ok && !IsMember(was, next[k].printing, asOf)
    ensures Member(next[k].printing, asOf, None, WeightOf(weights, next[k].printing))
      in InsertAll(rows, was, next, weights, asOf).rows
  {
    if k < |next| - 1 {
      NewcomerStored(rows, was, next[..|next| - 1], weights, asOf, k);
    }
  }

  lemma LaterRowOverlaps(rows: seq<Member>, next: seq<Candidate>, weights: map<PrintingId, real>, asOf: int, k: nat)
    requires AllInRange(rows) && DistinctCandidates(next) && !Stuck(rows, next, asOf) && k < |next|
    requires !IsMember(rows, next[k].printing, asOf) && HasLater(rows, next[k].printing, asOf)
    ensures !Disjoint(Rebalance(rows, next, weights, asOf).rows)
  {
    var closed, r := CloseAll(rows, next, asOf).rows, Rebalance(rows, next, weights, asOf).rows;
    CloseSucceeds(rows, next, asOf);
    InsertsNeverRefused(rows, next, weights, asOf);
    NewcomerStored(closed, rows, next, weights, asOf, k);
    InsertedOnly(closed, rows, next, weights, asOf);
    var i :| 0 <= i < |rows| && rows[i].printing == next[k].printing && rows[i].since > asOf;
    assert InRange(rows[i]) && r[i] == rows[i];
    var j :| 0 <= j < |r| && r[j] == Member(next[k].printing, asOf, None, WeightOf(weights, next[k].printing));
    assert !Apart(r[i], r[j]) && !Apart(r[j], r[i]);
  }

  /** For disjoint rows that the table admits and any date, earlier ones included: they stay disjoint
      exactly when the rebalance is refused, or no newcomer already has a row starting later. */
  lemma RebalanceStaysDisjoint(rows: seq<Member>, next: seq<Candidate>, weights: map<PrintingId, real>, asOf: int)
    requires Disjoint(rows) && AllInRange(rows) && DistinctCandidates(next)
    ensures Disjoint(Rebalance(rows, next, weights, asOf).rows)
      <==> Stuck(rows, next, asOf) || !StartsLater(rows, next, asOf)
  {
    CloseSucceeds(rows, next, asOf);
    ClosingKeepsDisjoint(rows, next, asOf);
    if !Stuck(rows, next, asOf) {
      if StartsLater(rows, next, asOf) {
        var k :| 0 <= k < |next| && !IsMember(rows, next[k].printing, asOf) && HasLater(rows, next[k].printing, asOf);
        LaterRowOverlaps(rows, next, weights, asOf, k);
      } else {
        forall k | 0 <= k < |next| && !IsMember(rows, next[k].printing, asOf)
          ensures Past(CloseAll(rows, next, asOf).rows, next[k].printing, asOf)
        {
          NewcomerIsPast(rows, next, next[k].printing, asOf);
        }
        InsertingKeepsDisjoint(CloseAll(rows, next, asOf).rows, rows, next, weights, asOf);
      }
    }
  }
}
