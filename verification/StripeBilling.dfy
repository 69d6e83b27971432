/** Stripe event ordering (packages/billing/src/webhooks.ts, packages/billing/src/stripe-order.ts):
    claim, stale check and patch of a billing row under any delivery order. Times are in
    milliseconds; `created` is the event's own order. */
module StripeBilling {
  import opened Common

  const DAY_MS: int := 24 * 60 * 60 * 1000
  const PAST_DUE_GRACE_DAYS: int := 7

  datatype Status =
    | NoneYet | Trialing | Active | PastDue | Unpaid | Canceled | IncompleteStatus | IncompleteExpired | Paused

  /** A status text: one of the list, or anything else. */
  datatype StatusText = Listed(status: Status) | Unlisted

  datatype Plan = Free | Starter | Growth | Scale

  datatype EventType =
    | CheckoutCompleted | SubscriptionCreated | SubscriptionUpdated | SubscriptionDeleted
    | InvoicePaid | InvoicePaymentFailed | OtherType

  datatype EventId = EventId(raw: string)
  datatype OrgId = OrgId(raw: string)
  datatype CustomerId = CustomerId(raw: string)
  datatype PriceId = PriceId(raw: string)

  /** `subscriptionStatus` is read from subscription events, `price` from them and from invoices. */
  datatype Event = Event(
    id: EventId, kind: EventType, created: int, customer: Option<CustomerId>, metadataOrg: Option<OrgId>,
    subscriptionStatus: Option<StatusText>, price: Option<PriceId>)

  datatype Row = Row(
    plan: Plan, status: Status, pastDueSince: Option<int>, graceEndsAt: Option<int>,
    canceledAt: Option<int>, trialStartedAt: Option<int>, trialEndsAt: Option<int>)

  /** The configured prices and the grace period, in days when it is set to a whole number. */
  datatype Config = Config(prices: map<PriceId, Plan>, graceDays: Option<int>)

  predicate Handled(k: EventType) { k != OtherType }

  function NormalizeStatus(t: Option<StatusText>): Status {
    if t.Some? && t.value.Listed? then t.value.status else IncompleteStatus
  }

  function PlanOf(c: Config, price: Option<PriceId>): Plan {
    if price.Some? && price.value in c.prices then c.prices[price.value] else Free
  }

  function OrElse<T>(o: Option<T>, d: T): T {
    if o.Some? then o.value else d
  }

  function GraceEnd(c: Config, since: int): int {
    since + Max(1, OrElse(c.graceDays, PAST_DUE_GRACE_DAYS)) * DAY_MS
  }

  // ----- What an event says, and the patch it makes -----

  predicate OfSubscription(k: EventType) {
    k == SubscriptionCreated || k == SubscriptionUpdated || k == SubscriptionDeleted
  }

  /** A subscription event's own status; a failed payment counts as past due, anything else as active. */
  function StatusOf(e: Event): Status {
    NormalizeStatus(if OfSubscription(e.kind) && e.subscriptionStatus.Some? then e.subscriptionStatus
                    else Some(Listed(if e.kind == InvoicePaymentFailed then PastDue else Active)))
  }

  /** A checkout names no price. */
  function PlanFor(c: Config, e: Event): Plan {
    if e.kind == SubscriptionDeleted || e.kind == CheckoutCompleted then Free else PlanOf(c, e.price)
  }

  const Blank := Row(Free, NoneYet, None, None, None, None, None)

  function Patch(c: Config, kind: EventType, given: Status, givenPlan: Plan, now: int, was: Row): Row {
    var status := if kind == SubscriptionDeleted then Canceled else given;
    var plan := if status == Canceled then Free else givenPlan;
    if status == PastDue || kind == InvoicePaymentFailed then
      var since := OrElse(was.pastDueSince, now);
      Row(plan, PastDue, Some(since), Some(OrElse(was.graceEndsAt, GraceEnd(c, since))), was.canceledAt,
          was.trialStartedAt, was.trialEndsAt)
    else if status == Canceled then
      Row(Free, Canceled, None, None, Some(OrElse(was.canceledAt, now)), was.trialStartedAt, was.trialEndsAt)
    else if status == Trialing then
      Row(plan, status, None, None, None, Some(OrElse(was.trialStartedAt, now)), was.trialEndsAt)
    else
      Row(plan, status, None, None, None, was.trialStartedAt, was.trialEndsAt)
  }

  function PatchFor(c: Config, e: Event, now: int, was: Row): Row {
    Patch(c, e.kind, StatusOf(e), PlanFor(c, e), now, was)
  }

  function ShouldApply(last: Option<int>, incoming: int): bool {
    last.None? || incoming >= last.value
  }

  // ----- State and deliveries -----

  /** One `subscription.changed` audit row. */
  datatype Change = Change(org: OrgId, event: Event)

  /** `completed` is history: the handled events whose transaction committed, applied or stale. */
  datatype State = State(claimed: set<EventId>, audit: seq<Change>, billing: map<OrgId, Row>, completed: seq<Change>)

  /** A delivery: the event, the tenant its customer maps to, the clock, and whether its
      transaction commits. */
  datatype Delivery = Delivery(event: Event, org: Option<OrgId>, now: int, commits: bool)

  datatype Outcome = Mismatch | Duplicate | Ignored | Stale | Applied | TransactionFailed

  function LastChange(audit: seq<Change>, org: OrgId): Option<Event> {
    if audit == [] then None
    else if audit[|audit| - 1].org == org then Some(audit[|audit| - 1].event)
    else LastChange(audit[..|audit| - 1], org)
  }

  function LastCreated(audit: seq<Change>, org: OrgId): Option<int> {
    var last := LastChange(audit, org);
    if last.None? then None else Some(last.value.created)
  }

  function RowOf(s: State, org: OrgId): Row {
    if org in s.billing then s.billing[org] else Blank
  }

  predicate Claimable(s: State, id: EventId) {
    5 <= |id.raw| <= 255 && id !in s.claimed
  }

  /** The transaction of a claimed, handled event. */
  function ApplyEvent(c: Config, s: State, org: OrgId, e: Event, now: int): State {
    var done := s.(completed := s.completed + [Change(org, e)]);
    if ShouldApply(LastCreated(s.audit, org), e.created) then
      done.(audit := s.audit + [Change(org, e)], billing := s.billing[org := PatchFor(c, e, now, RowOf(s, org))])
    else done
  }

  function OutcomeOf(s: State, d: Delivery): Outcome {
    if d.event.metadataOrg.Some? && d.org.Some? && d.event.metadataOrg != d.org then Mismatch
    else if !Claimable(s, d.event.id) then Duplicate
    else if !Handled(d.event.kind) || d.org.None? || d.event.customer.None? then Ignored
    else if !d.commits then TransactionFailed
    else if ShouldApply(LastCreated(s.audit, d.org.value), d.event.created) then Applied
    else Stale
  }

  /** The claim commits by itself, before the transaction. */
  function Claim(s: State, id: EventId): State {
    s.(claimed := s.claimed + {id})
  }

  function Deliver(c: Config, s: State, d: Delivery): State {
    match OutcomeOf(s, d)
    case Mismatch => s
    case Duplicate => s
    case Ignored => Claim(s, d.event.id)
    case TransactionFailed => Claim(s, d.event.id)
    case _ => if d.org.Some? then ApplyEvent(c, Claim(s, d.event.id), d.org.value, d.event, d.now) else s
  }

  function Start(rows: map<OrgId, Row>): State { State({}, [], rows, []) }

  function DeliverAll(c: Config, s: State, ds: seq<Delivery>): State {
    if ds == [] then s else Deliver(c, DeliverAll(c, s, ds[..|ds| - 1]), ds[|ds| - 1])
  }

  // ----- The webhook, step by step -----

  class Webhooks {
    const config: Config
    var claimed: set<EventId>
    var audit: seq<Change>
    var billing: map<OrgId, Row>
    ghost var completed: seq<Change>

    ghost function Now(): State
      reads this
    {
      State(claimed, audit, billing, completed)
    }

    constructor (config: Config, rows: map<OrgId, Row>)
      ensures this.config == config && Now() == Start(rows)
    {
      this.config := config;
      claimed, audit, billing, completed := {}, [], rows, [];
    }

    method ClaimStripeEvent(id: EventId) returns (ok: bool)
      modifies this`claimed
      ensures ok <==> Claimable(old(Now()), id)
      ensures Now() == if ok then Claim(old(Now()), id) else old(Now())
    {
      if |id.raw| < 5 || |id.raw| > 255 || id in claimed { return false; }
      claimed := claimed + {id};
      return true;
    }

    method ProcessStripeWebhook(d: Delivery) returns (outcome: Outcome)
      modifies this
      ensures outcome == OutcomeOf(old(Now()), d)
      ensures Now() == Deliver(config, old(Now()), d)
    {
      var e := d.event;
      if e.metadataOrg.Some? && d.org.Some? && e.metadataOrg != d.org { return Mismatch; }
      var ok := ClaimStripeEvent(e.id);
      if !ok { return Duplicate; }
      if !Handled(e.kind) || d.org.None? || e.customer.None? { return Ignored; }
      if !d.commits { return TransactionFailed; }
      var org := d.org.value;
      completed := completed + [Change(org, e)];
      if !ShouldApply(LastCreated(audit, org), e.created) { return Stale; }
      var was := if org in billing then billing[org] else Blank;
      billing := billing[org := PatchFor(config, e, d.now, was)];
      audit := audit + [Change(org, e)];
      return Applied;
    }
  }

  // ----- Order and deduplication -----

  /** Per tenant the applied events are in order of creation. */
  ghost predicate InOrder(audit: seq<Change>) {
    forall i, j :: 0 <= i < j < |audit| && audit[i].org == audit[j].org ==>
      audit[i].event.created <= audit[j].event.created
  }

  ghost predicate AppliedOnce(s: State) {
    && (forall i :: 0 <= i < |s.audit| ==> s.audit[i].event.id in s.claimed)
    && (forall i, j :: 0 <= i < j < |s.audit| ==> s.audit[i].event.id != s.audit[j].event.id)
  }

  lemma {:induction false} LastBoundsAll(audit: seq<Change>, org: OrgId, i: nat)
    requires InOrder(audit) && i < |audit| && audit[i].org == org
    ensures LastCreated(audit, org).Some? && audit[i].event.created <= LastCreated(audit, org).value
  {
    if audit[|audit| - 1].org != org {
      LastBoundsAll(audit[..|audit| - 1], org, i);
    }
  }

  lemma ApplyKeepsOrder(c: Config, s: State, org: OrgId, e: Event, now: int)
    requires InOrder(s.audit)
    ensures InOrder(ApplyEvent(c, s, org, e, now).audit)
  {
    if ShouldApply(LastCreated(s.audit, org), e.created) {
      forall i | 0 <= i < |s.audit| && s.audit[i].org == org ensures s.audit[i].event.created <= e.created {
        LastBoundsAll(s.audit, org, i);
      }
    }
  }

  lemma DeliverKeepsOrder(c: Config, s: State, d: Delivery)
    requires InOrder(s.audit) && AppliedOnce(s)
    ensures InOrder(Deliver(c, s, d).audit) && AppliedOnce(Deliver(c, s, d))
  {
    if d.org.Some? {
      ApplyKeepsOrder(c, Claim(s, d.event.id), d.org.value, d.event, d.now);
    }
  }

  /** For any delivery order with duplicates and failing transactions: no event is applied
      twice, and the applied events of a tenant never go back in creation order. */
  lemma {:induction false} AppliedOnceInOrder(c: Config, rows: map<OrgId, Row>, ds: seq<Delivery>)
    ensures var s := DeliverAll(c, Start(rows), ds); InOrder(s.audit) && AppliedOnce(s)
  {
    if ds != [] {
      AppliedOnceInOrder(c, rows, ds[..|ds| - 1]);
      DeliverKeepsOrder(c, DeliverAll(c, Start(rows), ds[..|ds| - 1]), ds[|ds| - 1]);
    }
  }

  // ----- The row is the patch of the newest event -----

  /** Plan and status of an event's patch do not depend on the row it meets. */
  function VerdictOf(c: Config, e: Event): (Plan, Status) {
    var row := PatchFor(c, e, 0, Blank);
    (row.plan, row.status)
  }

  lemma PatchVerdict(c: Config, e: Event, now: int, was: Row)
    ensures (PatchFor(c, e, now, was).plan, PatchFor(c, e, now, was).status) == VerdictOf(c, e)
  {
  }

  /** The stored row carries the verdict of the last applied event, and no completed event is newer. */
  ghost predicate Newest(c: Config, s: State, org: OrgId) {
    && (LastChange(s.audit, org).Some? ==>
          && Change(org, LastChange(s.audit, org).value) in s.completed
          && org in s.billing
            && (s.billing[org].plan, s.billing[org].status) == VerdictOf(c, LastChange(s.audit, org).value))
    && forall x :: x in s.completed && x.org == org ==>
          LastChange(s.audit, org).Some? && x.event.created <= LastChange(s.audit, org).value.created
  }

  lemma {:induction false} LastOfAppended(audit: seq<Change>, x: Change, org: OrgId)
    ensures LastChange(audit + [x], org) == if x.org == org then Some(x.event) else LastChange(audit, org)
  {
    assert (audit + [x])[..|audit|] == audit;
  }

  lemma ApplyKeepsNewest(c: Config, s: State, at: OrgId, e: Event, now: int, org: OrgId)
    requires Newest(c, s, org)
    ensures Newest(c, ApplyEvent(c, s, at, e, now), org)
  {
    var s' := ApplyEvent(c, s, at, e, now);
    LastOfAppended(s.audit, Change(at, e), org);
    PatchVerdict(c, e, now, RowOf(s, at));
    assert forall x :: x in s'.completed ==> x in s.completed || x == Change(at, e);
    assert forall x :: x in s.completed ==> x in s'.completed;
    assert s'.completed[|s.completed|] == Change(at, e);
  }

  lemma DeliverKeepsNewest(c: Config, s: State, d: Delivery, org: OrgId)
    requires Newest(c, s, org)
    ensures Newest(c, Deliver(c, s, d), org)
  {
    if d.org.Some? {
      ApplyKeepsNewest(c, Claim(s, d.event.id), d.org.value, d.event, d.now, org);
    }
  }

  /** For any delivery order the stored plan and status are those of the patch of an event with
      the greatest creation time among the completed handled events of the tenant. */
  lemma {:induction false} RowIsNewestPatch(c: Config, rows: map<OrgId, Row>, ds: seq<Delivery>, org: OrgId)
    ensures Newest(c, DeliverAll(c, Start(rows), ds), org)
  {
    if ds != [] {
      RowIsNewestPatch(c, rows, ds[..|ds| - 1], org);
      DeliverKeepsNewest(c, DeliverAll(c, Start(rows), ds[..|ds| - 1]), ds[|ds| - 1], org);
    }
  }

  ghost predicate DistinctTimes(completed: seq<Change>, org: OrgId) {
    forall x, y ::
      x in completed && y in completed && x.org == org && y.org == org && x.event.created == y.event.created ==> x == y
  }

  /** Two delivery orders of the same handled events, created at different times, end with the
      same plan and status. */
  lemma {:induction false} OrderDoesNotMatter(
      c: Config, rows: map<OrgId, Row>, ds: seq<Delivery>, es: seq<Delivery>, org: OrgId)
    requires DistinctTimes(DeliverAll(c, Start(rows), ds).completed, org)
    requires forall x ::
      x in DeliverAll(c, Start(rows), ds).completed <==> x in DeliverAll(c, Start(rows), es).completed
    requires exists x :: x in DeliverAll(c, Start(rows), ds).completed && x.org == org
    ensures org in DeliverAll(c, Start(rows), ds).billing && org in DeliverAll(c, Start(rows), es).billing
    ensures DeliverAll(c, Start(rows), ds).billing[org].plan == DeliverAll(c, Start(rows), es).billing[org].plan
    ensures DeliverAll(c, Start(rows), ds).billing[org].status == DeliverAll(c, Start(rows), es).billing[org].status
  {
    RowIsNewestPatch(c, rows, ds, org);
    RowIsNewestPatch(c, rows, es, org);
    SameNewest(c, DeliverAll(c, Start(rows), ds), DeliverAll(c, Start(rows), es), org);
  }

  lemma {:induction false} SameNewest(c: Config, s: State, t: State, org: OrgId)
    requires Newest(c, s, org) && Newest(c, t, org) && DistinctTimes(s.completed, org)
    requires forall x :: x in s.completed <==> x in t.completed
    requires exists x :: x in s.completed && x.org == org
    ensures LastChange(s.audit, org).Some? && LastChange(s.audit, org) == LastChange(t.audit, org)
  {
    var x :| x in s.completed && x.org == org;
    assert x in t.completed;
    var a, b := LastChange(s.audit, org).value, LastChange(t.audit, org).value;
    assert Change(org, a) in t.completed && Change(org, b) in s.completed;
    assert a.created == b.created;
  }

  // ----- Past-due spells -----

  /** Past due since and grace end are set exactly while past due, and the grace period is fixed. */
  predicate SpellOk(c: Config, row: Row) {
    && (row.pastDueSince.Some? <==> row.status == PastDue)
    && (row.graceEndsAt.Some? <==> row.status == PastDue)
    && (row.status == PastDue ==> row.graceEndsAt == Some(GraceEnd(c, row.pastDueSince.value)))
  }

  lemma PatchKeepsSpell(c: Config, e: Event, now: int, was: Row)
    requires SpellOk(c, was)
    ensures SpellOk(c, PatchFor(c, e, now, was))
    ensures was.status == PastDue && PatchFor(c, e, now, was).status == PastDue ==>
      var r := PatchFor(c, e, now, was); r.pastDueSince == was.pastDueSince && r.graceEndsAt == was.graceEndsAt
    ensures was.status != PastDue && PatchFor(c, e, now, was).status == PastDue ==>
      PatchFor(c, e, now, was).pastDueSince == Some(now)
  {
  }

  ghost predicate SpellsOk(c: Config, rows: map<OrgId, Row>) {
    forall org :: org in rows ==> SpellOk(c, rows[org])
  }

  lemma DeliverKeepsSpells(c: Config, s: State, d: Delivery)
    requires SpellsOk(c, s.billing)
    ensures SpellsOk(c, Deliver(c, s, d).billing)
  {
    if d.org.Some? {
      PatchKeepsSpell(c, d.event, d.now, RowOf(s, d.org.value));
    }
  }

  lemma {:induction false} SpellsStayOk(c: Config, rows: map<OrgId, Row>, ds: seq<Delivery>)
    requires SpellsOk(c, rows)
    ensures SpellsOk(c, DeliverAll(c, Start(rows), ds).billing)
  {
    if ds != [] {
      SpellsStayOk(c, rows, ds[..|ds| - 1]);
      DeliverKeepsSpells(c, DeliverAll(c, Start(rows), ds[..|ds| - 1]), ds[|ds| - 1]);
    }
  }

  /** The tenant is past due after every one of the first n, n+1, ... deliveries. */
  ghost predicate PastDueThroughout(c: Config, rows: map<OrgId, Row>, ds: seq<Delivery>, org: OrgId, n: nat)
    requires n <= |ds|
  {
    forall k :: n <= k <= |ds| ==> RowOf(DeliverAll(c, Start(rows), ds[..k]), org).status == PastDue
  }

  lemma DeliverKeepsDates(c: Config, s: State, d: Delivery, org: OrgId)
    requires SpellsOk(c, s.billing) && RowOf(s, org).status == PastDue && RowOf(Deliver(c, s, d), org).status == PastDue
    ensures RowOf(Deliver(c, s, d), org).pastDueSince == RowOf(s, org).pastDueSince
    ensures RowOf(Deliver(c, s, d), org).graceEndsAt == RowOf(s, org).graceEndsAt
  {
    if d.org == Some(org) {
      PatchKeepsSpell(c, d.event, d.now, RowOf(s, org));
    }
  }

  /** Through one past-due spell both dates stay fixed, whatever is delivered. */
  lemma {:induction false} DatesFixedThroughSpell(
      c: Config, rows: map<OrgId, Row>, ds: seq<Delivery>, org: OrgId, n: nat)
    requires SpellsOk(c, rows) && n <= |ds| && PastDueThroughout(c, rows, ds, org, n)
    ensures RowOf(DeliverAll(c, Start(rows), ds), org).pastDueSince
      == RowOf(DeliverAll(c, Start(rows), ds[..n]), org).pastDueSince
    ensures RowOf(DeliverAll(c, Start(rows), ds), org).graceEndsAt
      == RowOf(DeliverAll(c, Start(rows), ds[..n]), org).graceEndsAt
    decreases |ds|
  {
    assert ds[..|ds|] == ds;
    if n < |ds| {
      var front := ds[..|ds| - 1];
      assert front[..n] == ds[..n];
      forall k | n <= k <= |front| ensures RowOf(DeliverAll(c, Start(rows), front[..k]), org).status == PastDue {
        assert front[..k] == ds[..k];
      }
      DatesFixedThroughSpell(c, rows, front, org, n);
      SpellsStayOk(c, rows, front);
      DeliverKeepsDates(c, DeliverAll(c, Start(rows), front), ds[|ds| - 1], org);
    }
  }

  // ----- Trials and cancellation -----

  /** A deleted or canceled subscription is on the free plan; a failed payment makes it past due
      whatever the status text; otherwise the event's status and plan stand. A trial keeps its first
      start; leaving cancellation clears its date. */
  lemma PatchMeaning(c: Config, e: Event, now: int, was: Row)
    ensures var row := PatchFor(c, e, now, was);
      && (e.kind == SubscriptionDeleted ==> row.status == Canceled)
      && (row.status == Canceled ==> row.plan == Free && row.canceledAt == Some(OrElse(was.canceledAt, now)))
      && (e.kind == InvoicePaymentFailed ==> row.status == PastDue)
      && (e.kind != SubscriptionDeleted && e.kind != InvoicePaymentFailed ==> row.status == StatusOf(e))
      && (row.status != Canceled ==> row.plan == PlanFor(c, e))
      && (row.status == Trialing ==> row.trialStartedAt.Some?)
      && (was.trialStartedAt.Some? ==> row.trialStartedAt == was.trialStartedAt)
      && (row.status != Canceled && row.status != PastDue ==> row.canceledAt == None)
  {
  }

  lemma DeliverKeepsTrialStart(c: Config, s: State, d: Delivery, org: OrgId)
    requires RowOf(s, org).trialStartedAt.Some?
    ensures RowOf(Deliver(c, s, d), org).trialStartedAt == RowOf(s, org).trialStartedAt
  {
    if d.org == Some(org) {
      PatchMeaning(c, d.event, d.now, RowOf(s, org));
    }
  }

  /** Once a trial has started no delivery restarts it. */
  lemma {:induction false} TrialStartsOnce(c: Config, s: State, ds: seq<Delivery>, org: OrgId)
    requires RowOf(s, org).trialStartedAt.Some?
    ensures RowOf(DeliverAll(c, s, ds), org).trialStartedAt == RowOf(s, org).trialStartedAt
  {
    if ds != [] {
      TrialStartsOnce(c, s, ds[..|ds| - 1], org);
      DeliverKeepsTrialStart(c, DeliverAll(c, s, ds[..|ds| - 1]), ds[|ds| - 1], org);
    }
  }

  // ----- A failing transaction -----

  lemma {:induction false} ClaimsOnlyGrow(c: Config, s: State, ds: seq<Delivery>)
    ensures s.claimed <= DeliverAll(c, s, ds).claimed
  {
    if ds != [] { ClaimsOnlyGrow(c, s, ds[..|ds| - 1]); }
  }

  /** The claim is not part of the transaction: when that fails, or the customer has no tenant
      yet, the event is spent. Every redelivery, after whatever else, is a duplicate (or a tenant
      mismatch) and changes nothing. */
  lemma {:induction false} UnappliedEventIsSpent(c: Config, s: State, d: Delivery, more: seq<Delivery>, again: Delivery)
    requires (OutcomeOf(s, d) == TransactionFailed || OutcomeOf(s, d) == Ignored) && again.event == d.event
    ensures Deliver(c, s, d).audit == s.audit && Deliver(c, s, d).billing == s.billing
    ensures OutcomeOf(DeliverAll(c, Deliver(c, s, d), more), again) in {Duplicate, Mismatch}
    ensures Deliver(c, DeliverAll(c, Deliver(c, s, d), more), again) == DeliverAll(c, Deliver(c, s, d), more)
  {
    ClaimsOnlyGrow(c, Deliver(c, s, d), more);
  }
}
