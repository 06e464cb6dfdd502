/** The Stripe webhook: `customer.subscription.created` inserts a guarded
    subscription row and marks the user subscribed; `invoice.payment_succeeded`
    activates the user's rows once the payment intent has succeeded. */
module StripeWebhook {
  import opened Wrappers
  import opened Schema
  import opened Store
  import opened Helpers
  import opened Seqs

  /** A verified Stripe event, reduced to the fields the handler reads.
      `periodStart`, `periodEnd` and `cancelAt` are in seconds, as Stripe sends them. */
  datatype Event =
    | SubscriptionCreated(subscriptionId: string, customer: string, priceIds: seq<string>,
                          periodStart: int, periodEnd: int, cancelAt: Option<int>, userId: string)
    | PaymentSucceeded(paymentIntent: Option<string>, detailsUserId: Option<string>)
    | OtherEvent(eventType: string)

  datatype Reply =
    | SecretMissing    // the webhook secret is not configured: the handler throws
    | MissingSignature // no `stripe-signature` header
    | Rejected         // the signature did not verify
    | RetrieveFailed   // the payment intent could not be retrieved
    | Received
  {
    function Status(): int
    {
      if Received? then 200 else 500
    }
  }

  /** The row a `customer.subscription.created` event inserts: always "inActive",
      the billing period converted from seconds to milliseconds, `cancelAt` the
      truthiness of Stripe's `cancel_at`. */
  function SubscriptionRow(e: Event): (row: StripeSubscription)
    requires e.SubscriptionCreated?
  {
    StripeSubscription(
      e.subscriptionId, e.customer, InActive,
      if |e.priceIds| > 0 then Some(e.priceIds[0]) else None,
      e.periodStart * 1000, e.periodEnd * 1000,
      e.cancelAt.Some? && e.cancelAt.value != 0,
      e.userId)
  }

  /** `update stripeSubscriptions set status = 'active' where userId = …`. */
  function ActivateForUser(subscriptions: seq<StripeSubscription>, userId: string): (r: seq<StripeSubscription>)
    ensures |r| == |subscriptions|
    ensures forall i :: 0 <= i < |r| ==> r[i].userId == subscriptions[i].userId && r[i].endDate == subscriptions[i].endDate
    ensures forall i :: 0 <= i < |r| ==>
      r[i] == if subscriptions[i].userId == userId then subscriptions[i].(status := Active) else subscriptions[i]
  {
    UpdateWhere(subscriptions, (row: StripeSubscription) => row.userId == userId,
                (row: StripeSubscription) => row.(status := Active))
  }

  /** The effect of one webhook delivery on the store, and the reply.
      `verified` is the outcome of Stripe's signature check (`None` when it throws),
      `intentStatus` that of retrieving the payment intent (`None` when it throws),
      `monthLater` the time one calendar month after `now`. */
  function Receive(s: State, secretConfigured: bool, signature: Option<string>, verified: Option<Event>,
                   intentStatus: Option<string>, now: Millis, monthLater: Millis): Outcome<Reply>
  {
    if !secretConfigured then Outcome(s, SecretMissing)
    else if !Present(signature) then Outcome(s, MissingSignature)
    else if verified.None? then Outcome(s, Rejected)
    else
      match verified.value
      case SubscriptionCreated(_, _, _, _, _, _, userId) =>
        if FirstActive(s.subscriptions, userId, now).Some? then Outcome(s, Received)
        else Outcome(State(SetSubscription(s.users, userId, true, Some(monthLater)), s.todos,
                           s.subscriptions + [SubscriptionRow(verified.value)]), Received)
      case PaymentSucceeded(intent, userId) =>
        if !(Present(intent) && Present(userId)) then Outcome(s, Received)
        else if intentStatus.None? then Outcome(s, RetrieveFailed)
        else if intentStatus.value == "succeeded" then
          Outcome(s.(subscriptions := ActivateForUser(s.subscriptions, userId.value)), Received)
        else Outcome(s, Received)
      case OtherEvent(_) => Outcome(s, Received)
  }

  /** The route handler, writing the tables one statement at a time. */
  method Post(db: Database, secretConfigured: bool, signature: Option<string>, verified: Option<Event>,
              intentStatus: Option<string>, now: Millis, monthLater: Millis) returns (reply: Reply)
    modifies db
    ensures Outcome(db.Snapshot(), reply) ==
            Receive(old(db.Snapshot()), secretConfigured, signature, verified, intentStatus, now, monthLater)
  {
    if !secretConfigured {
      return SecretMissing;
    }
    if !Present(signature) {
      return MissingSignature;
    }
    if verified.None? {
      return Rejected;
    }
    var event := verified.value;
    if event.SubscriptionCreated? {
      var existing := FirstActive(db.subscriptions, event.userId, now);
      if existing.None? {
        db.subscriptions := db.subscriptions + [SubscriptionRow(event)];
        db.users := SetSubscription(db.users, event.userId, true, Some(monthLater));
      }
    }
    if event.PaymentSucceeded? {
      if Present(event.paymentIntent) && Present(event.detailsUserId) {
        if intentStatus.None? {
          return RetrieveFailed;
        }
        if intentStatus.value == "succeeded" {
          db.subscriptions := ActivateForUser(db.subscriptions, event.detailsUserId.value);
        }
      }
    }
    return Received;
  }

  /** A request without a `stripe-signature` header is answered 500 and changes nothing. */
  lemma MissingSignatureChangesNothing(s: State, signature: Option<string>, verified: Option<Event>,
                                       intentStatus: Option<string>, now: Millis, monthLater: Millis)
    requires !Present(signature)
    ensures var o := Receive(s, true, signature, verified, intentStatus, now, monthLater);
            o.next == s && o.reply == MissingSignature && o.reply.Status() == 500
  {
  }

  /** A signature that does not verify is answered 500 and changes nothing. */
  lemma RejectedChangesNothing(s: State, signature: Option<string>, intentStatus: Option<string>,
                               now: Millis, monthLater: Millis)
    requires Present(signature)
    ensures var o := Receive(s, true, signature, None, intentStatus, now, monthLater);
            o.next == s && o.reply == Rejected && o.reply.Status() == 500
  {
  }

  /** Only a 200 reply can come with a change: every failure leaves the store as it was. */
  lemma FailuresChangeNothing(s: State, secretConfigured: bool, signature: Option<string>, verified: Option<Event>,
                              intentStatus: Option<string>, now: Millis, monthLater: Millis)
    ensures var o := Receive(s, secretConfigured, signature, verified, intentStatus, now, monthLater);
            o.reply.Status() != 200 ==> o.next == s
  {
  }

  /** The webhook never touches the todos table. */
  lemma ReceiveKeepsTodos(s: State, secretConfigured: bool, signature: Option<string>, verified: Option<Event>,
                          intentStatus: Option<string>, now: Millis, monthLater: Millis)
    ensures Receive(s, secretConfigured, signature, verified, intentStatus, now, monthLater).next.todos == s.todos
  {
  }

  /** A `created` event for a user who already has an active, unexpired row changes nothing. */
  lemma CreatedGuarded(s: State, e: Event, signature: Option<string>, intentStatus: Option<string>,
                       now: Millis, monthLater: Millis, i: nat)
    requires e.SubscriptionCreated? && Present(signature)
    requires i < |s.subscriptions| && ActiveFor(s.subscriptions[i], e.userId, now)
    ensures Receive(s, true, signature, Some(e), intentStatus, now, monthLater) == Outcome(s, Received)
  {
  }

  /** Otherwise exactly one row is appended: status "inActive", the period in
      milliseconds, `cancelAt` set exactly when Stripe's `cancel_at` is a non-zero number. */
  lemma CreatedInsertsInactiveRow(s: State, e: Event, signature: Option<string>, intentStatus: Option<string>,
                                  now: Millis, monthLater: Millis)
    requires e.SubscriptionCreated? && Present(signature)
    requires forall i :: 0 <= i < |s.subscriptions| ==> !ActiveFor(s.subscriptions[i], e.userId, now)
    ensures var o := Receive(s, true, signature, Some(e), intentStatus, now, monthLater);
            o.reply == Received &&
            |o.next.subscriptions| == |s.subscriptions| + 1 &&
            o.next.subscriptions[..|s.subscriptions|] == s.subscriptions &&
            var row := o.next.subscriptions[|s.subscriptions|];
            row.id == e.subscriptionId && row.customerId == e.customer && row.userId == e.userId &&
            row.status == InActive &&
            row.startDate == e.periodStart * 1000 && row.endDate == e.periodEnd * 1000 &&
            row.cancelAt == (e.cancelAt.Some? && e.cancelAt.value != 0) &&
            row.priceId == (if |e.priceIds| > 0 then Some(e.priceIds[0]) else None)
  {
    assert FirstActive(s.subscriptions, e.userId, now).None?;
  }

  /** In that same case the user is marked subscribed until a month from now,
      although the row just inserted is inactive; every other user is unchanged. */
  lemma CreatedSubscribesUser(s: State, e: Event, signature: Option<string>, intentStatus: Option<string>,
                              now: Millis, monthLater: Millis)
    requires e.SubscriptionCreated? && Present(signature)
    requires forall i :: 0 <= i < |s.subscriptions| ==> !ActiveFor(s.subscriptions[i], e.userId, now)
    ensures var o := Receive(s, true, signature, Some(e), intentStatus, now, monthLater);
            |o.next.users| == |s.users| &&
            (forall i :: 0 <= i < |s.users| && s.users[i].id == e.userId ==>
               o.next.users[i].isSubscribed && o.next.users[i].subscriptionEnds == Some(monthLater)) &&
            (forall i :: 0 <= i < |s.users| && s.users[i].id != e.userId ==> o.next.users[i] == s.users[i])
  {
    assert FirstActive(s.subscriptions, e.userId, now).None?;
  }

  /** `payment_succeeded` with both ids present and a succeeded intent sets every
      row of that user to "active" and leaves the users table untouched. */
  lemma PaymentActivates(s: State, intent: string, userId: string, signature: Option<string>,
                         now: Millis, monthLater: Millis)
    requires Present(signature) && intent != "" && userId != ""
    ensures var o := Receive(s, true, signature, Some(PaymentSucceeded(Some(intent), Some(userId))),
                             Some("succeeded"), now, monthLater);
            o.reply == Received && o.next.users == s.users && o.next.todos == s.todos &&
            |o.next.subscriptions| == |s.subscriptions| &&
            forall i :: 0 <= i < |s.subscriptions| ==>
              o.next.subscriptions[i] ==
                if s.subscriptions[i].userId == userId then s.subscriptions[i].(status := Active) else s.subscriptions[i]
  {
  }

  /** `payment_succeeded` changes the store only when both ids are present and the
      intent's status is "succeeded". */
  lemma PaymentChangesOnlyWhenSucceeded(s: State, intent: Option<string>, userId: Option<string>,
                                        signature: Option<string>, intentStatus: Option<string>,
                                        now: Millis, monthLater: Millis)
    requires Present(signature)
    requires !(Present(intent) && Present(userId) && intentStatus == Some("succeeded"))
    ensures Receive(s, true, signature, Some(PaymentSucceeded(intent, userId)), intentStatus, now, monthLater).next == s
  {
  }

  /** Any other event type changes nothing and is answered 200. */
  lemma OtherEventIgnored(s: State, eventType: string, signature: Option<string>, intentStatus: Option<string>,
                          now: Millis, monthLater: Millis)
    requires Present(signature)
    ensures Receive(s, true, signature, Some(OtherEvent(eventType)), intentStatus, now, monthLater) == Outcome(s, Received)
  {
  }

  /** Every delivery keeps the schema's constraints. */
  lemma ReceiveKeepsValid(s: State, secretConfigured: bool, signature: Option<string>, verified: Option<Event>,
                          intentStatus: Option<string>, now: Millis, monthLater: Millis)
    requires Valid(s)
    ensures Valid(Receive(s, secretConfigured, signature, verified, intentStatus, now, monthLater).next)
  {
    if secretConfigured && Present(signature) && verified.Some? && verified.value.SubscriptionCreated? {
      var userId := verified.value.userId;
      if FirstActive(s.subscriptions, userId, now).None? {
        SetSubscriptionKeepsValid(s, userId, true, Some(monthLater));
      }
    }
  }
}
