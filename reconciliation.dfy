/** How the handlers that write subscription state combine: what a sequence of
    webhook deliveries and subscription requests leaves in the store. */
module Reconciliation {
  import opened Wrappers
  import opened Schema
  import opened Store
  import opened StripeWebhook
  import opened SubscriptionRoute

  /** A `created` delivery for a user without an active row marks the user
      subscribed while the only new row is inactive: "subscribed" and "has an
      active subscription" disagree until the payment arrives. */
  lemma CreatedSubscribesWithoutActiveRow(s: State, e: Event, signature: string, now: Millis, monthLater: Millis, k: nat)
    requires e.SubscriptionCreated? && signature != ""
    requires k < |s.users| && s.users[k].id == e.userId
    requires forall i :: 0 <= i < |s.subscriptions| ==> !ActiveFor(s.subscriptions[i], e.userId, now)
    ensures var next := Receive(s, true, Some(signature), Some(e), None, now, monthLater).next;
            next.users[k].isSubscribed && FirstActive(next.subscriptions, e.userId, now).None?
  {
    CreatedInsertsInactiveRow(s, e, Some(signature), None, now, monthLater);
    CreatedSubscribesUser(s, e, Some(signature), None, now, monthLater);
    var next := Receive(s, true, Some(signature), Some(e), None, now, monthLater).next;
    forall i | 0 <= i < |next.subscriptions| ensures !ActiveFor(next.subscriptions[i], e.userId, now) {
      if i < |s.subscriptions| {
        assert next.subscriptions[i] == next.subscriptions[..|s.subscriptions|][i];
      }
    }
  }

  /** Delivering the same `created` event twice before its payment inserts two
      rows: the guard only looks at active rows. */
  lemma CreatedReplayInsertsTwice(s: State, e: Event, signature: string, now: Millis, monthLater: Millis)
    requires e.SubscriptionCreated? && signature != ""
    requires forall i :: 0 <= i < |s.subscriptions| ==> !ActiveFor(s.subscriptions[i], e.userId, now)
    ensures var once := Receive(s, true, Some(signature), Some(e), None, now, monthLater).next;
            var twice := Receive(once, true, Some(signature), Some(e), None, now, monthLater).next;
            twice.subscriptions == s.subscriptions + [SubscriptionRow(e), SubscriptionRow(e)]
  {
    var once := Receive(s, true, Some(signature), Some(e), None, now, monthLater).next;
    assert once.subscriptions == s.subscriptions + [SubscriptionRow(e)];
    forall i | 0 <= i < |once.subscriptions| ensures !ActiveFor(once.subscriptions[i], e.userId, now) {
      if i < |s.subscriptions| {
        assert once.subscriptions[i] == s.subscriptions[i];
      }
    }
    assert FirstActive(once.subscriptions, e.userId, now).None?;
  }

  /** Once the payment has activated the user's rows, a replayed `created` event
      for a period that has not ended is ignored. */
  lemma PaymentThenReplayIgnored(s: State, e: Event, intent: string, signature: string, now: Millis, monthLater: Millis)
    requires e.SubscriptionCreated? && signature != "" && intent != "" && e.userId != ""
    requires e.periodEnd * 1000 > now
    requires forall i :: 0 <= i < |s.subscriptions| ==> !ActiveFor(s.subscriptions[i], e.userId, now)
    ensures var created := Receive(s, true, Some(signature), Some(e), None, now, monthLater).next;
            var paid := Receive(created, true, Some(signature), Some(PaymentSucceeded(Some(intent), Some(e.userId))),
                                Some("succeeded"), now, monthLater).next;
            Receive(paid, true, Some(signature), Some(e), None, now, monthLater) == Outcome(paid, Received)
  {
    var created := Receive(s, true, Some(signature), Some(e), None, now, monthLater).next;
    assert created.subscriptions == s.subscriptions + [SubscriptionRow(e)];
    var paid := Receive(created, true, Some(signature), Some(PaymentSucceeded(Some(intent), Some(e.userId))),
                        Some("succeeded"), now, monthLater).next;
    var last := |s.subscriptions|;
    assert ActiveFor(paid.subscriptions[last], e.userId, now);
  }

  /** A subscription taken by POST is reported by every GET up to and including
      its end date, and nothing is written by those reads. */
  lemma SubscribeThenStatus(s: State, userId: string, monthLater: Millis, now: Millis)
    requires userId != "" && HasUser(s.users, userId) && now <= monthLater
    ensures var after := Subscribe(s, Some(userId), monthLater).next;
            CheckStatus(after, Some(userId), now) == Outcome(after, Status(true, Some(monthLater)))
  {
    var after := Subscribe(s, Some(userId), monthLater).next;
    UserIndexSameIds(s.users, after.users, userId);
  }

  /** The first GET after the end date clears the subscription for good: it stays
      cleared for every later GET. */
  lemma StatusAfterExpiry(s: State, userId: string, monthLater: Millis, now: Millis, later: Millis)
    requires userId != "" && HasUser(s.users, userId) && monthLater < now <= later
    ensures var after := Subscribe(s, Some(userId), monthLater).next;
            var first := CheckStatus(after, Some(userId), now);
            first.reply == Status(false, None) &&
            CheckStatus(first.next, Some(userId), later) == Outcome(first.next, Status(false, None))
  {
    var after := Subscribe(s, Some(userId), monthLater).next;
    UserIndexSameIds(s.users, after.users, userId);
    var first := CheckStatus(after, Some(userId), now);
    UserIndexSameIds(after.users, first.next.users, userId);
  }
}
