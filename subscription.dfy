/** The subscription route: GET reports the caller's subscription and lazily
    expires it; POST subscribes the caller for one month. */
module SubscriptionRoute {
  import opened Wrappers
  import opened Schema
  import opened Store
  import opened Helpers

  datatype Reply =
    | Unauthorized
    | UserNotFound
    | Subscribed(newEnd: Millis)
    | Status(isSubscribed: bool, subscriptionEnds: Option<Millis>)
  {
    function Code(): int
    {
      match this
      case Unauthorized => 401
      case UserNotFound => 404
      case _ => 200
    }
  }

  /** POST: mark the caller subscribed until `monthLater`, one calendar month after now. */
  function Subscribe(s: State, caller: Option<string>, monthLater: Millis): Outcome<Reply>
  {
    if !Present(caller) then Outcome(s, Unauthorized)
    else if UserIndex(s.users, caller.value).None? then Outcome(s, UserNotFound)
    else Outcome(s.(users := SetSubscription(s.users, caller.value, true, Some(monthLater))), Subscribed(monthLater))
  }

  /** GET: report the stored pair, first clearing it when the end date has passed. */
  function CheckStatus(s: State, caller: Option<string>, now: Millis): Outcome<Reply>
  {
    if !Present(caller) then Outcome(s, Unauthorized)
    else
      var k := UserIndex(s.users, caller.value);
      if k.None? then Outcome(s, UserNotFound)
      else
        var u := s.users[k.value];
        if u.subscriptionEnds.Some? && u.subscriptionEnds.value < now then
          Outcome(s.(users := SetSubscription(s.users, caller.value, false, None)), Status(false, None))
        else Outcome(s, Status(u.isSubscribed, u.subscriptionEnds))
  }

  method Post(db: Database, caller: Option<string>, monthLater: Millis) returns (reply: Reply)
    modifies db
    ensures Outcome(db.Snapshot(), reply) == Subscribe(old(db.Snapshot()), caller, monthLater)
  {
    if !Present(caller) {
      return Unauthorized;
    }
    var userId := caller.value;
    var user := UserIndex(db.users, userId);
    if user.None? {
      return UserNotFound;
    }
    db.users := SetSubscription(db.users, userId, true, Some(monthLater));
    return Subscribed(monthLater);
  }

  method Get(db: Database, caller: Option<string>, now: Millis) returns (reply: Reply)
    modifies db
    ensures Outcome(db.Snapshot(), reply) == CheckStatus(old(db.Snapshot()), caller, now)
  {
    if !Present(caller) {
      return Unauthorized;
    }
    var userId := caller.value;
    var k := UserIndex(db.users, userId);
    if k.None? {
      return UserNotFound;
    }
    var user := db.users[k.value];
    if user.subscriptionEnds.Some? && user.subscriptionEnds.value < now {
      db.users := SetSubscription(db.users, userId, false, None);
      return Status(false, None);
    }
    return Status(user.isSubscribed, user.subscriptionEnds);
  }

  /** Without an authenticated caller both requests are answered 401; for an
      unknown caller, 404; neither writes anything. */
  lemma NoUserNoChange(s: State, caller: Option<string>, now: Millis, monthLater: Millis)
    requires !Present(caller) || !HasUser(s.users, caller.value)
    ensures var post, get := Subscribe(s, caller, monthLater), CheckStatus(s, caller, now);
            post.next == s && get.next == s &&
            post.reply.Code() == get.reply.Code() == (if Present(caller) then 404 else 401)
  {
  }

  /** GET on an end date before `now` stores and returns "not subscribed, no end date". */
  lemma StatusExpires(s: State, userId: string, now: Millis)
    requires userId != ""
    requires UserIndex(s.users, userId).Some?
    requires var u := s.users[UserIndex(s.users, userId).value];
             u.subscriptionEnds.Some? && u.subscriptionEnds.value < now
    ensures var o := CheckStatus(s, Some(userId), now);
            o.reply == Status(false, None) &&
            o.next.todos == s.todos && o.next.subscriptions == s.subscriptions &&
            |o.next.users| == |s.users| &&
            forall i :: 0 <= i < |s.users| ==>
              o.next.users[i] == if s.users[i].id == userId
                                 then s.users[i].(isSubscribed := false, subscriptionEnds := None)
                                 else s.users[i]
  {
  }

  /** Otherwise GET writes nothing and returns the stored pair. */
  lemma StatusReadOnly(s: State, userId: string, now: Millis)
    requires userId != ""
    requires UserIndex(s.users, userId).Some?
    requires var u := s.users[UserIndex(s.users, userId).value];
             u.subscriptionEnds.None? || u.subscriptionEnds.value >= now
    ensures var u := s.users[UserIndex(s.users, userId).value];
            CheckStatus(s, Some(userId), now) == Outcome(s, Status(u.isSubscribed, u.subscriptionEnds))
  {
  }

  /** After any GET, the caller's stored end date is absent or not before `now`. */
  lemma StatusLeavesNoPastEnd(s: State, userId: string, now: Millis)
    requires userId != "" && HasUser(s.users, userId)
    ensures var next := CheckStatus(s, Some(userId), now).next;
            UserIndex(next.users, userId).Some? &&
            var u := next.users[UserIndex(next.users, userId).value];
            u.subscriptionEnds.None? || u.subscriptionEnds.value >= now
  {
    var next := CheckStatus(s, Some(userId), now).next;
    UserIndexSameIds(s.users, next.users, userId);
  }

  /** GET is idempotent: a second call returns the same reply and writes nothing more. */
  lemma CheckStatusIdempotent(s: State, caller: Option<string>, now: Millis)
    ensures var first := CheckStatus(s, caller, now);
            CheckStatus(first.next, caller, now) == Outcome(first.next, first.reply)
  {
    var first := CheckStatus(s, caller, now);
    if Present(caller) {
      UserIndexSameIds(s.users, first.next.users, caller.value);
    }
  }

  /** POST marks every row of the caller subscribed until `monthLater` and
      returns that end date; no other user changes. */
  lemma SubscribeSetsEnd(s: State, userId: string, monthLater: Millis)
    requires userId != "" && HasUser(s.users, userId)
    ensures var o := Subscribe(s, Some(userId), monthLater);
            o.reply == Subscribed(monthLater) && o.reply.Code() == 200 &&
            o.next.todos == s.todos && o.next.subscriptions == s.subscriptions &&
            |o.next.users| == |s.users| &&
            forall i :: 0 <= i < |s.users| ==>
              o.next.users[i] == if s.users[i].id == userId
                                 then s.users[i].(isSubscribed := true, subscriptionEnds := Some(monthLater))
                                 else s.users[i]
  {
  }

  /** Both requests keep the schema's constraints. */
  lemma RouteKeepsValid(s: State, caller: Option<string>, now: Millis, monthLater: Millis)
    requires Valid(s)
    ensures Valid(Subscribe(s, caller, monthLater).next) && Valid(CheckStatus(s, caller, now).next)
  {
    if Present(caller) {
      SetSubscriptionKeepsValid(s, caller.value, true, Some(monthLater));
      SetSubscriptionKeepsValid(s, caller.value, false, None);
    }
  }
}
