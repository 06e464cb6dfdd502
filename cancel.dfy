/** The cancel-or-resume route: for a caller with an active subscription, set
    `cancel_at_period_end` on the first subscription Stripe lists for the
    row's customer. The local store is only read. */
module SubscriptionCancelRoute {
  import opened Wrappers
  import opened Schema
  import opened Store
  import opened Helpers

  /** What Stripe answers to `subscriptions.list({ customer })`. */
  datatype Listing = Listed(ids: seq<string>) | ListError(code: string)

  datatype Reply =
    | Unauthorized
    | NoActiveSubscription
    | ListFailed(message: string)
    | InternalError          // an exception caught by the outer handler
    | SubscriptionNotFound
    | Cancelled
    | Resumed
  {
    function Code(): int
    {
      match this
      case Unauthorized => 401
      case NoActiveSubscription => 404
      case ListFailed(_) => 500
      case InternalError => 500
      case SubscriptionNotFound => 404
      case Cancelled => 200
      case Resumed => 200
    }
  }

  /** One `subscriptions.update(id, { cancel_at_period_end })` call. */
  datatype GatewayUpdate = GatewayUpdate(subscriptionId: string, cancelAtPeriodEnd: bool)

  /** The reply and the gateway update (if any) a request leads to. */
  datatype Decision = Decision(reply: Reply, update: Option<GatewayUpdate>)

  /** The listing Stripe gives for `customer`: a transport failure carries its
      own error code; an unknown customer is `resource_missing`. */
  function ListFor(listed: map<string, seq<string>>, customer: string, failure: Option<string>): Listing
  {
    if failure.Some? then ListError(failure.value)
    else if customer !in listed then ListError("resource_missing")
    else Listed(listed[customer])
  }

  /** The whole decision of a request. `isSubscriptionCancelled` is the body's
      field (`None` when absent); `failure` a listing call that throws. */
  function Decide(subscriptions: seq<StripeSubscription>, listed: map<string, seq<string>>,
                  caller: Option<string>, isSubscriptionCancelled: Option<JsonValue>,
                  failure: Option<string>, now: Millis): Decision
  {
    if !Present(caller) then Decision(Unauthorized, None)
    else
      var k := FirstActive(subscriptions, caller.value, now);
      if k.None? then Decision(NoActiveSubscription, None)
      else
        match ListFor(listed, subscriptions[k.value].customerId, failure)
        case ListError(code) =>
          Decision(ListFailed(if code == "resource_missing" then "Subscription not found" else "Internal Server Error"), None)
        case Listed(ids) =>
          if ids == [] then Decision(InternalError, None)
          else if ids[0] == "" then Decision(SubscriptionNotFound, None)
          else
            var cancel := isSubscriptionCancelled == Some(JBool(true));
            Decision(if cancel then Cancelled else Resumed, Some(GatewayUpdate(ids[0], cancel)))
  }

  /** The billing gateway, as far as this route sees it. */
  class Gateway {
    /** Each customer's subscription ids, in listing order. */
    var listed: map<string, seq<string>>
    /** The `cancel_at_period_end` flag of each subscription. */
    var cancelAtPeriodEnd: map<string, bool>
    /** Every update call made, in order. */
    var updates: seq<GatewayUpdate>

    function Listing(customer: string, failure: Option<string>): Listing
      reads this
    {
      ListFor(listed, customer, failure)
    }

    method Update(u: GatewayUpdate)
      modifies this
      ensures listed == old(listed)
      ensures cancelAtPeriodEnd == old(cancelAtPeriodEnd)[u.subscriptionId := u.cancelAtPeriodEnd]
      ensures updates == old(updates) + [u]
    {
      cancelAtPeriodEnd := cancelAtPeriodEnd[u.subscriptionId := u.cancelAtPeriodEnd];
      updates := updates + [u];
    }
  }

  /** The route handler: looks up the local row, lists, then updates at most once. */
  method Post(db: Database, gateway: Gateway, caller: Option<string>, isSubscriptionCancelled: Option<JsonValue>,
              failure: Option<string>, now: Millis) returns (reply: Reply)
    modifies gateway
    ensures db.Snapshot() == old(db.Snapshot())
    ensures gateway.listed == old(gateway.listed)
    ensures var d := Decide(db.subscriptions, gateway.listed, caller, isSubscriptionCancelled, failure, now);
            reply == d.reply &&
            match d.update
            case None => gateway.cancelAtPeriodEnd == old(gateway.cancelAtPeriodEnd) && gateway.updates == old(gateway.updates)
            case Some(u) => gateway.cancelAtPeriodEnd == old(gateway.cancelAtPeriodEnd)[u.subscriptionId := u.cancelAtPeriodEnd] &&
                            gateway.updates == old(gateway.updates) + [u]
  {
    if !Present(caller) {
      return Unauthorized;
    }
    var k := FirstActive(db.subscriptions, caller.value, now);
    if k.None? {
      return NoActiveSubscription;
    }
    var customerId := db.subscriptions[k.value].customerId;
    var listing := gateway.Listing(customerId, failure);
    if listing.ListError? {
      var message := if listing.code == "resource_missing" then "Subscription not found" else "Internal Server Error";
      return ListFailed(message);
    }
    if listing.ids == [] {
      return InternalError;
    }
    var subscriptionId := listing.ids[0];
    if subscriptionId == "" {
      return SubscriptionNotFound;
    }
    if isSubscriptionCancelled == Some(JBool(true)) {
      gateway.Update(GatewayUpdate(subscriptionId, true));
      return Cancelled;
    }
    gateway.Update(GatewayUpdate(subscriptionId, false));
    return Resumed;
  }

  /** Without a caller, 401; without an active, unexpired row, 404; either way no gateway call. */
  lemma NoActiveNoGatewayCall(subscriptions: seq<StripeSubscription>, listed: map<string, seq<string>>,
                              caller: Option<string>, flag: Option<JsonValue>, failure: Option<string>, now: Millis)
    requires Present(caller) ==> forall i :: 0 <= i < |subscriptions| ==> !ActiveFor(subscriptions[i], caller.value, now)
    ensures var d := Decide(subscriptions, listed, caller, flag, failure, now);
            d.update == None && d.reply.Code() == (if Present(caller) then 404 else 401)
  {
  }

  /** A failed listing is a 500 whose message is "Subscription not found" exactly
      when the error code is `resource_missing`. */
  lemma ListFailureMessage(subscriptions: seq<StripeSubscription>, listed: map<string, seq<string>>,
                           userId: string, flag: Option<JsonValue>, failure: Option<string>, now: Millis)
    requires userId != "" && FirstActive(subscriptions, userId, now).Some?
    requires ListFor(listed, subscriptions[FirstActive(subscriptions, userId, now).value].customerId, failure).ListError?
    ensures var d := Decide(subscriptions, listed, Some(userId), flag, failure, now);
            var code := ListFor(listed, subscriptions[FirstActive(subscriptions, userId, now).value].customerId, failure).code;
            d.update == None && d.reply.ListFailed? && d.reply.Code() == 500 &&
            (d.reply.message == "Subscription not found" <==> code == "resource_missing")
  {
  }

  /** An update happens exactly when the reply is a success; it targets the first
      listed subscription of the active row's customer, and it cancels exactly
      when `isSubscriptionCancelled` is the boolean `true`. */
  lemma UpdateTargetsFirstListed(subscriptions: seq<StripeSubscription>, listed: map<string, seq<string>>,
                                 caller: Option<string>, flag: Option<JsonValue>, failure: Option<string>, now: Millis)
    ensures var d := Decide(subscriptions, listed, caller, flag, failure, now);
            (d.update.Some? <==> d.reply.Code() == 200) &&
            (d.update.Some? ==>
               Present(caller) && FirstActive(subscriptions, caller.value, now).Some? &&
               var customer := subscriptions[FirstActive(subscriptions, caller.value, now).value].customerId;
               failure.None? && customer in listed && |listed[customer]| > 0 &&
               d.update.value.subscriptionId == listed[customer][0] &&
               (d.update.value.cancelAtPeriodEnd <==> flag == Some(JBool(true))) &&
               (d.reply == Cancelled <==> d.update.value.cancelAtPeriodEnd))
  {
  }

  /** With an active row, a listing that succeeds and a non-empty first id, the
      route updates that subscription: `cancel_at_period_end` becomes true and the
      reply "cancelled" exactly when `isSubscriptionCancelled` is the boolean
      `true`; any other value resumes it. */
  lemma CancelOrResumeSucceeds(subscriptions: seq<StripeSubscription>, listed: map<string, seq<string>>,
                               userId: string, flag: Option<JsonValue>, now: Millis)
    requires userId != "" && FirstActive(subscriptions, userId, now).Some?
    requires var customer := subscriptions[FirstActive(subscriptions, userId, now).value].customerId;
             customer in listed && listed[customer] != [] && listed[customer][0] != ""
    ensures var customer := subscriptions[FirstActive(subscriptions, userId, now).value].customerId;
            var cancel := flag == Some(JBool(true));
            Decide(subscriptions, listed, Some(userId), flag, None, now) ==
            Decision(if cancel then Cancelled else Resumed, Some(GatewayUpdate(listed[customer][0], cancel)))
  {
  }

  /** An empty listing makes `data[0]!.id` throw: the reply is the outer handler's
      500, not the 404 the id check below it was written for. */
  lemma EmptyListingIsServerError(subscriptions: seq<StripeSubscription>, listed: map<string, seq<string>>,
                                  userId: string, flag: Option<JsonValue>, now: Millis)
    requires userId != "" && FirstActive(subscriptions, userId, now).Some?
    requires var customer := subscriptions[FirstActive(subscriptions, userId, now).value].customerId;
             customer in listed && listed[customer] == []
    ensures Decide(subscriptions, listed, Some(userId), flag, None, now) == Decision(InternalError, None)
  {
  }
}
