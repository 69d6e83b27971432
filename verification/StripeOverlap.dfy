/** Deliveries of Stripe events whose transactions overlap (packages/billing/src/webhooks.ts). A
    transaction reads the last applied creation time and the billing row without a lock and writes on
    that reading; others can commit in between. Deliveries are listed in the order they commit. */
module StripeOverlap {
  import opened Common
  import opened StripeBilling

  /** What a transaction read before its write. */
  datatype Reading = Reading(last: Option<int>, was: Row)

  datatype Overlapping = Overlapping(delivery: Delivery, reading: Reading)

  function Current(s: State, org: OrgId): Reading {
    Reading(LastCreated(s.audit, org), RowOf(s, org))
  }

  /** The transaction of a claimed, handled event on a reading. */
  function ApplyOn(c: Config, s: State, org: OrgId, e: Event, now: int, r: Reading): State {
    var done := s.(completed := s.completed + [Change(org, e)]);
    if ShouldApply(r.last, e.created) then
      done.(audit := s.audit + [Change(org, e)], billing := s.billing[org := PatchFor(c, e, now, r.was)])
    else done
  }

  /** A new, handled event of a known tenant whose transaction commits. */
  predicate Commits(s: State, d: Delivery) {
    && !(d.event.metadataOrg.Some? && d.org.Some? && d.event.metadataOrg != d.org)
    && Claimable(s, d.event.id) && Handled(d.event.kind) && d.org.Some? && d.event.customer.Some? && d.commits
  }

  function DeliverOn(c: Config, s: State, o: Overlapping): State {
    if Commits(s, o.delivery) then
      ApplyOn(c, Claim(s, o.delivery.event.id), o.delivery.org.value, o.delivery.event, o.delivery.now, o.reading)
    else Deliver(c, s, o.delivery)
  }

  function DeliverAllOn(c: Config, s: State, os: seq<Overlapping>): State {
    if os == [] then s else DeliverOn(c, DeliverAllOn(c, s, os[..|os| - 1]), os[|os| - 1])
  }

  /** A delivery that commits nothing leaves audit, rows and completed events alone. */
  lemma OthersChangeNothing(c: Config, s: State, d: Delivery)
    requires !Commits(s, d)
    ensures var s' := Deliver(c, s, d);
      s'.audit == s.audit && s'.billing == s.billing && s'.completed == s.completed && s.claimed <= s'.claimed
  {
  }

  /** On a reading that still holds, a delivery is the plain one: deliveries that do not overlap are
      a special case. */
  lemma FreshDeliveryIsPlain(c: Config, s: State, o: Overlapping)
    requires o.delivery.org.Some? ==> o.reading == Current(s, o.delivery.org.value)
    ensures DeliverOn(c, s, o) == Deliver(c, s, o.delivery)
  {
  }

  // ----- Applied once -----

  lemma DeliverOnKeepsOnce(c: Config, s: State, o: Overlapping)
    requires AppliedOnce(s)
    ensures AppliedOnce(DeliverOn(c, s, o))
  {
    if !Commits(s, o.delivery) { OthersChangeNothing(c, s, o.delivery); }
  }

  /** However transactions overlap, no event is applied twice: the claim decides. */
  lemma {:induction false} OverlapsApplyOnce(c: Config, rows: map<OrgId, Row>, os: seq<Overlapping>)
    ensures AppliedOnce(DeliverAllOn(c, Start(rows), os))
  {
    if os != [] {
      OverlapsApplyOnce(c, rows, os[..|os| - 1]);
      DeliverOnKeepsOnce(c, DeliverAllOn(c, Start(rows), os[..|os| - 1]), os[|os| - 1]);
    }
  }

  // ----- Applied in order -----

  /** A write that the stored state admits too: no newer event has been applied since the reading. */
  predicate Fits(s: State, o: Overlapping) {
    Commits(s, o.delivery) && ShouldApply(o.reading.last, o.delivery.event.created) ==>
      ShouldApply(LastCreated(s.audit, o.delivery.org.value), o.delivery.event.created)
  }

  lemma {:induction false} LastIsApplied(audit: seq<Change>, org: OrgId)
    requires LastCreated(audit, org).Some?
    ensures exists i ::
      0 <= i < |audit| && audit[i].org == org && audit[i].event.created == LastCreated(audit, org).value
  {
    if audit[|audit| - 1].org != org {
      LastIsApplied(audit[..|audit| - 1], org);
      var i :| 0 <= i < |audit| - 1 && audit[i].org == org && audit[i].event.created == LastCreated(audit, org).value;
    }
  }

  lemma AppendInOrder(audit: seq<Change>, x: Change)
    requires InOrder(audit)
    ensures InOrder(audit + [x]) <==> ShouldApply(LastCreated(audit, x.org), x.event.created)
  {
    var r := audit + [x];
    if ShouldApply(LastCreated(audit, x.org), x.event.created) {
      forall i | 0 <= i < |audit| && audit[i].org == x.org ensures audit[i].event.created <= x.event.created {
        LastBoundsAll(audit, x.org, i);
      }
    } else {
      LastIsApplied(audit, x.org);
      var i :| 0 <= i < |audit| && audit[i].org == x.org && audit[i].event.created == LastCreated(audit, x.org).value;
      assert r[i] == audit[i] && r[|audit|] == x;
    }
  }

  lemma DeliverOnInOrder(c: Config, s: State, o: Overlapping)
    requires InOrder(s.audit)
    ensures InOrder(DeliverOn(c, s, o).audit) <==> Fits(s, o)
  {
    if Commits(s, o.delivery) {
      AppendInOrder(s.audit, Change(o.delivery.org.value, o.delivery.event));
    } else {
      OthersChangeNothing(c, s, o.delivery);
    }
  }

  predicate AllFit(c: Config, rows: map<OrgId, Row>, os: seq<Overlapping>) {
    os == [] ||
    (AllFit(c, rows, os[..|os| - 1]) && Fits(DeliverAllOn(c, Start(rows), os[..|os| - 1]), os[|os| - 1]))
  }

  lemma OrderOnlyBreaks(c: Config, s: State, o: Overlapping)
    requires !InOrder(s.audit)
    ensures !InOrder(DeliverOn(c, s, o).audit)
  {
    var i, j :| 0 <= i < j < |s.audit| && s.audit[i].org == s.audit[j].org
      && s.audit[i].event.created > s.audit[j].event.created;
    if !Commits(s, o.delivery) { OthersChangeNothing(c, s, o.delivery); }
    var r := DeliverOn(c, s, o).audit;
    assert r[i] == s.audit[i] && r[j] == s.audit[j];
  }

  /** The applied events of every tenant are in order of creation exactly when every write fits. */
  lemma {:induction false} OverlapsInOrder(c: Config, rows: map<OrgId, Row>, os: seq<Overlapping>)
    ensures InOrder(DeliverAllOn(c, Start(rows), os).audit) <==> AllFit(c, rows, os)
  {
    if os != [] {
      var s, o := DeliverAllOn(c, Start(rows), os[..|os| - 1]), os[|os| - 1];
      OverlapsInOrder(c, rows, os[..|os| - 1]);
      if InOrder(s.audit) {
        DeliverOnInOrder(c, s, o);
      } else {
        OrderOnlyBreaks(c, s, o);
      }
    }
  }

  // ----- The newest patch -----

  /** The creation time read is that of an event applied before. */
  ghost predicate Genuine(s: State, o: Overlapping) {
    o.delivery.org.Some? && o.reading.last.Some? ==>
      exists i :: 0 <= i < |s.audit| && s.audit[i].org == o.delivery.org.value
        && s.audit[i].event.created == o.reading.last.value
  }

  ghost predicate AllGenuine(c: Config, rows: map<OrgId, Row>, os: seq<Overlapping>) {
    os == [] ||
    (AllGenuine(c, rows, os[..|os| - 1]) && Genuine(DeliverAllOn(c, Start(rows), os[..|os| - 1]), os[|os| - 1]))
  }

  /** An event dropped as stale is older than one applied. */
  lemma DroppedIsOlder(s: State, o: Overlapping)
    requires InOrder(s.audit) && Genuine(s, o) && o.delivery.org.Some?
    requires !ShouldApply(o.reading.last, o.delivery.event.created)
    ensures !ShouldApply(LastCreated(s.audit, o.delivery.org.value), o.delivery.event.created)
  {
    var org := o.delivery.org.value;
    var i :| 0 <= i < |s.audit| && s.audit[i].org == org && s.audit[i].event.created == o.reading.last.value;
    LastBoundsAll(s.audit, org, i);
  }

  lemma ApplyOnKeepsNewest(c: Config, s: State, at: OrgId, e: Event, now: int, r: Reading, org: OrgId)
    requires Newest(c, s, org)
    requires ShouldApply(r.last, e.created) <==> ShouldApply(LastCreated(s.audit, at), e.created)
    ensures Newest(c, ApplyOn(c, s, at, e, now, r), org)
  {
    var s' := ApplyOn(c, s, at, e, now, r);
    LastOfAppended(s.audit, Change(at, e), org);
    PatchVerdict(c, e, now, r.was);
    assert forall x :: x in s'.completed ==> x in s.completed || x == Change(at, e);
    assert forall x :: x in s.completed ==> x in s'.completed;
    assert s'.completed[|s.completed|] == Change(at, e);
  }

  lemma DeliverOnKeepsNewest(c: Config, s: State, o: Overlapping, org: OrgId)
    requires Newest(c, s, org) && InOrder(s.audit) && Fits(s, o) && Genuine(s, o)
    ensures Newest(c, DeliverOn(c, s, o), org)
  {
    if Commits(s, o.delivery) {
      if !ShouldApply(o.reading.last, o.delivery.event.created) { DroppedIsOlder(s, o); }
      var d, claimed := o.delivery, Claim(s, o.delivery.event.id);
      ApplyOnKeepsNewest(c, claimed, d.org.value, d.event, d.now, o.reading, org);
    } else {
      OthersChangeNothing(c, s, o.delivery);
    }
  }

  /** When every write fits, the stored plan and status are those of a newest completed event,
      however the transactions overlap. */
  lemma {:induction false} FittingOverlapsStoreNewest(
      c: Config, rows: map<OrgId, Row>, os: seq<Overlapping>, org: OrgId)
    requires AllFit(c, rows, os) && AllGenuine(c, rows, os)
    ensures Newest(c, DeliverAllOn(c, Start(rows), os), org)
  {
    if os != [] {
      FittingOverlapsStoreNewest(c, rows, os[..|os| - 1], org);
      OverlapsInOrder(c, rows, os[..|os| - 1]);
      DeliverOnKeepsNewest(c, DeliverAllOn(c, Start(rows), os[..|os| - 1]), os[|os| - 1], org);
    }
  }

  /** Two events of one tenant, read side by side before either commits: the older one commits last,
      and its plan and status are stored. */
  lemma {:induction false} OverlapStoresOlder(
      c: Config, rows: map<OrgId, Row>, org: OrgId, first: Delivery, second: Delivery)
    requires Commits(Start(rows), first) && Commits(Start(rows), second) && first.event.id != second.event.id
    requires first.org == second.org == Some(org) && second.event.created < first.event.created
    ensures var seen := Current(Start(rows), org);
      var os := [Overlapping(first, seen)] + [Overlapping(second, seen)];
      var end := DeliverAllOn(c, Start(rows), os);
      && !InOrder(end.audit) && !Newest(c, end, org)
      && org in end.billing && (end.billing[org].plan, end.billing[org].status) == VerdictOf(c, second.event)
  {
    var seen := Current(Start(rows), org);
    var a, b := Overlapping(first, seen), Overlapping(second, seen);
    assert ([a] + [b])[..1] == [a] && [a][..0] == [];
    var s := DeliverOn(c, Start(rows), a);
    assert DeliverAllOn(c, Start(rows), [a]) == s;
    assert s.audit == [Change(org, first.event)] && s.completed == [Change(org, first.event)];
    var end := DeliverOn(c, s, b);
    assert DeliverAllOn(c, Start(rows), [a] + [b]) == end;
    PatchVerdict(c, second.event, second.now, seen.was);
    assert end.audit[0] == Change(org, first.event) && end.audit[1] == Change(org, second.event);
    LastOfAppended(s.audit, Change(org, second.event), org);
    assert end.completed[0] == Change(org, first.event);
  }
}
