/** The answer to a delivered Stripe event and the billing row it leaves, field by field
    (packages/billing/src/webhooks.ts, packages/billing/src/stripe-order.ts). */
module StripeOutcome {
  import opened Common
  import opened StripeBilling

  // ----- The answer -----

  /** An event that names another tenant than its customer's. */
  ghost predicate Mismatched(d: Delivery) {
    d.event.metadataOrg.Some? && d.org.Some? && d.event.metadataOrg.value != d.org.value
  }

  /** An id that was never claimed, of 5 to 255 characters. */
  ghost predicate New(s: State, d: Delivery) {
    !Mismatched(d) && d.event.id !in s.claimed && 5 <= |d.event.id.raw| && |d.event.id.raw| < 256
  }

  /** One of the six handled kinds, of a customer with a tenant. */
  ghost predicate Relevant(d: Delivery) {
    && d.event.customer.Some? && d.org.Some?
    && d.event.kind in {
      CheckoutCompleted, SubscriptionCreated, SubscriptionUpdated, SubscriptionDeleted, InvoicePaid,
      InvoicePaymentFailed}
  }

  /** An event of the tenant that was created later has been applied. */
  ghost predicate Overtaken(s: State, d: Delivery)
    requires d.org.Some?
  {
    exists i :: 0 <= i < |s.audit| && s.audit[i].org == d.org.value && d.event.created < s.audit[i].event.created
  }

  lemma {:induction false} LastIsApplied(audit: seq<Change>, org: OrgId)
    ensures LastCreated(audit, org).Some? ==>
      exists i :: 0 <= i < |audit| && audit[i].org == org && audit[i].event.created == LastCreated(audit, org).value
  {
    if audit != [] && audit[|audit| - 1].org != org {
      LastIsApplied(audit[..|audit| - 1], org);
      if LastCreated(audit, org).Some? {
        var i :| 0 <= i < |audit| - 1 && audit[..|audit| - 1][i].org == org
          && audit[..|audit| - 1][i].event.created == LastCreated(audit, org).value;
        assert audit[i].org == org;
      }
    }
  }

  lemma StaleMeansOvertaken(s: State, d: Delivery)
    requires InOrder(s.audit) && d.org.Some?
    ensures ShouldApply(LastCreated(s.audit, d.org.value), d.event.created) <==> !Overtaken(s, d)
  {
    var org := d.org.value;
    LastIsApplied(s.audit, org);
    if Overtaken(s, d) {
      var i :| 0 <= i < |s.audit| && s.audit[i].org == org && d.event.created < s.audit[i].event.created;
      LastBoundsAll(s.audit, org, i);
    }
  }

  /** Every answer exactly when it is given. */
  lemma AnswersExactly(s: State, d: Delivery)
    requires InOrder(s.audit)
    ensures var r := OutcomeOf(s, d);
      && (r == Mismatch <==> Mismatched(d))
      && (r == Duplicate <==> !Mismatched(d) && !New(s, d))
      && (r == Ignored <==> New(s, d) && !Relevant(d))
      && (r == TransactionFailed <==> New(s, d) && Relevant(d) && !d.commits)
      && (r == Stale <==> New(s, d) && Relevant(d) && d.commits && Overtaken(s, d))
      && (r == Applied <==> New(s, d) && Relevant(d) && d.commits && !Overtaken(s, d))
  {
    if d.org.Some? { StaleMeansOvertaken(s, d); }
  }

  /** What each answer leaves: the id is claimed unless the event was refused or known, and the row and
      the audit change exactly when the event was applied. */
  lemma AnswersWrite(c: Config, s: State, d: Delivery)
    ensures var r, end := OutcomeOf(s, d), Deliver(c, s, d);
      && end.claimed == (if r == Mismatch || r == Duplicate then s.claimed else s.claimed + {d.event.id})
      && (r != Applied ==> end.audit == s.audit && end.billing == s.billing)
      && (r == Applied ==>
            && d.org.Some? && end.audit == s.audit + [Change(d.org.value, d.event)]
            && end.billing == s.billing[d.org.value := PatchFor(c, d.event, d.now, RowOf(s, d.org.value))])
  {
  }

  // ----- The row -----

  function Or(first: Option<int>, second: int): int {
    match first case Some(n) => n case None => second
  }

  /** The patched row, column by column: the status of its event, the plan of its price, the dates of a
      past-due spell, of a cancellation and of a trial. */
  lemma RowByColumns(c: Config, e: Event, now: int, was: Row)
    ensures var row := PatchFor(c, e, now, was);
      && row.status
         == (match e.kind
             case SubscriptionDeleted => Canceled
             case InvoicePaymentFailed => PastDue
             case SubscriptionCreated | SubscriptionUpdated =>
               (match e.subscriptionStatus
                case None => Active
                case Some(Unlisted) => IncompleteStatus
                case Some(Listed(status)) => status)
             case _ => Active)
      && row.plan
         == (if row.status == Canceled || e.kind == CheckoutCompleted || e.price.None? || e.price.value !in c.prices
             then Free else c.prices[e.price.value])
      && row.pastDueSince == (if row.status == PastDue then Some(Or(was.pastDueSince, now)) else None)
      && row.graceEndsAt
         == (if row.status == PastDue then
               var days := Or(c.graceDays, 7);
               Some(Or(was.graceEndsAt, Or(was.pastDueSince, now) + (if days < 1 then 1 else days) * 86_400_000))
             else None)
      && row.canceledAt
         == (if row.status == Canceled then Some(Or(was.canceledAt, now))
             else if row.status == PastDue then was.canceledAt else None)
      && row.trialStartedAt
         == (if row.status == Trialing then Some(Or(was.trialStartedAt, now)) else was.trialStartedAt)
      && row.trialEndsAt == was.trialEndsAt
  {
  }

  // ----- Over a run -----

  /** For any order of deliveries that do not overlap: an event is applied exactly when it is new, relevant,
      committed and not overtaken, and the row then is the patch of the row before. */
  lemma {:induction false} NextDelivery(c: Config, rows: map<OrgId, Row>, ds: seq<Delivery>, d: Delivery)
    ensures var s := DeliverAll(c, Start(rows), ds);
      && (OutcomeOf(s, d) == Applied <==> New(s, d) && Relevant(d) && d.commits && !Overtaken(s, d))
      && (OutcomeOf(s, d) == Applied ==>
            && d.org.value in Deliver(c, s, d).billing
            && Deliver(c, s, d).billing[d.org.value] == PatchFor(c, d.event, d.now, RowOf(s, d.org.value)))
  {
    AppliedOnceInOrder(c, rows, ds);
    AnswersExactly(DeliverAll(c, Start(rows), ds), d);
    AnswersWrite(c, DeliverAll(c, Start(rows), ds), d);
  }
}
