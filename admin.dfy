/** The admin route: GET shows a user, found by email, with one page of their
    todos; PUT toggles a subscription and edits a todo; DELETE removes a todo.
    Every request needs an authenticated caller whose role is "admin". */
module AdminRoute {
  import opened Wrappers
  import opened Schema
  import opened Store
  import opened Helpers
  import opened Seqs
  import opened Paging

  /** The subscription period an administrator grants: 30 days in milliseconds. */
  const THIRTY_DAYS_MS: int := 30 * 24 * 60 * 60 * 1000

  /** A user with one page of their todos, as `include: { todos: { … } }` loads it. */
  datatype UserPage = UserPage(user: User, todos: seq<Todo>)

  datatype Reply =
    | Unauthorized
    | EmailInvalid
    | TodoIdRequired
    | InternalError     // an exception from the database, caught by the handler
    | View(user: Option<UserPage>, totalPages: nat, currentPage: int)
    | Updated
    | Deleted
  {
    function Code(): int
    {
      match this
      case Unauthorized => 401
      case EmailInvalid => 401
      case TodoIdRequired => 400
      case InternalError => 500
      case _ => 200
    }
  }

  predicate Authorized(caller: Option<string>, role: Option<string>)
  {
    Present(caller) && IsAdmin(role)
  }

  /** Index of the user row holding `email`. */
  function EmailIndex(users: seq<User>, email: string): (r: Option<nat>)
    ensures r.Some? ==> r.value < |users| && users[r.value].email == email
    ensures r.None? <==> !EmailTaken(users, email)
  {
    FirstWhere(users, (u: User) => u.email == email)
  }

  /** The todo's owner exists and has this email: `where: { User: { email } }`. */
  predicate OwnedByEmail(users: seq<User>, t: Todo, email: string)
  {
    t.userId.Some? && exists i :: 0 <= i < |users| && users[i].id == t.userId.value && users[i].email == email
  }

  function CountByEmail(s: State, email: string): nat
  {
    |Filter(s.todos, (t: Todo) => OwnedByEmail(s.users, t, email))|
  }

  /** GET. A page number below 1 gives a negative `skip`, which Prisma
      refuses by throwing; without an email no query runs at all. */
  function Inspect(s: State, caller: Option<string>, role: Option<string>, email: Option<string>, page: int): Reply
  {
    if !Authorized(caller, role) then Unauthorized
    else if !Present(email) then View(None, 0, page)
    else
      var k := EmailIndex(s.users, email.value);
      if k.None? then EmailInvalid
      else if page < 1 then InternalError
      else
        var u := s.users[k.value];
        View(Some(UserPage(u, PageOf(NewestFirst(TodosOf(s.todos, u.id)), page))),
             TotalPages(CountByEmail(s, email.value)), page)
  }

  /** The todo after a partial edit: `completed` only when given, `title` only when non-empty. */
  function Edit(t: Todo, completed: Option<bool>, title: Option<string>): Todo
  {
    t.(completed := if completed.Some? then completed.value else t.completed,
       title := if Present(title) then title.value else t.title)
  }

  /** `user.update({ where: { email }, data: { isSubscribed, subscriptionEnds } })`. */
  function SetByEmail(users: seq<User>, email: string, isSubscribed: bool, now: Millis): (r: seq<User>)
    ensures |r| == |users|
    ensures forall i :: 0 <= i < |users| ==> r[i].id == users[i].id && r[i].email == users[i].email
    ensures forall i :: 0 <= i < |users| ==>
      r[i] == if users[i].email == email
              then users[i].(isSubscribed := isSubscribed,
                             subscriptionEnds := if isSubscribed then Some(now + THIRTY_DAYS_MS) else None)
              else users[i]
  {
    UpdateWhere(users, (u: User) => u.email == email,
                (u: User) => u.(isSubscribed := isSubscribed,
                                subscriptionEnds := if isSubscribed then Some(now + THIRTY_DAYS_MS) else None))
  }

  /** `todo.update({ where: { id }, data: { completed, title } })`. */
  function EditById(todos: seq<Todo>, id: string, completed: Option<bool>, title: Option<string>): (r: seq<Todo>)
    ensures |r| == |todos|
    ensures forall i :: 0 <= i < |todos| ==> r[i].id == todos[i].id && r[i].userId == todos[i].userId
    ensures forall i :: 0 <= i < |todos| ==> r[i] == if todos[i].id == id then Edit(todos[i], completed, title) else todos[i]
  {
    UpdateWhere(todos, (t: Todo) => t.id == id, (t: Todo) => Edit(t, completed, title))
  }

  /** PUT. Each of the two updates throws when its row is missing (or, for the
      user, when no email is given); a todo update that throws leaves the user
      update already made in place. */
  function Change(s: State, caller: Option<string>, role: Option<string>, email: Option<string>,
                  isSubscribed: Option<bool>, todoId: Option<string>, todoCompleted: Option<bool>,
                  todoTitle: Option<string>, now: Millis): Outcome<Reply>
  {
    if !Authorized(caller, role) then Outcome(s, Unauthorized)
    else if isSubscribed.Some? && (email.None? || EmailIndex(s.users, email.value).None?) then
      Outcome(s, InternalError)
    else
      var s1 := if isSubscribed.Some? then s.(users := SetByEmail(s.users, email.value, isSubscribed.value, now)) else s;
      if !Present(todoId) then Outcome(s1, Updated)
      else if !HasTodo(s1.todos, todoId.value) then Outcome(s1, InternalError)
      else Outcome(s1.(todos := EditById(s1.todos, todoId.value, todoCompleted, todoTitle)), Updated)
  }

  /** DELETE. Deleting a missing todo throws. */
  function Remove(s: State, caller: Option<string>, role: Option<string>, todoId: Option<string>): Outcome<Reply>
  {
    if !Authorized(caller, role) then Outcome(s, Unauthorized)
    else if !Present(todoId) then Outcome(s, TodoIdRequired)
    else if !HasTodo(s.todos, todoId.value) then Outcome(s, InternalError)
    else Outcome(s.(todos := Filter(s.todos, (t: Todo) => t.id != todoId.value)), Deleted)
  }

  method Put(db: Database, caller: Option<string>, role: Option<string>, email: Option<string>,
             isSubscribed: Option<bool>, todoId: Option<string>, todoCompleted: Option<bool>,
             todoTitle: Option<string>, now: Millis) returns (reply: Reply)
    modifies db
    ensures Outcome(db.Snapshot(), reply) ==
            Change(old(db.Snapshot()), caller, role, email, isSubscribed, todoId, todoCompleted, todoTitle, now)
  {
    if !Authorized(caller, role) {
      return Unauthorized;
    }
    if isSubscribed.Some? {
      if email.None? || EmailIndex(db.users, email.value).None? {
        return InternalError;
      }
      db.users := SetByEmail(db.users, email.value, isSubscribed.value, now);
    }
    if Present(todoId) {
      if !HasTodo(db.todos, todoId.value) {
        return InternalError;
      }
      db.todos := EditById(db.todos, todoId.value, todoCompleted, todoTitle);
    }
    return Updated;
  }

  method Delete(db: Database, caller: Option<string>, role: Option<string>, todoId: Option<string>)
    returns (reply: Reply)
    modifies db
    ensures Outcome(db.Snapshot(), reply) == Remove(old(db.Snapshot()), caller, role, todoId)
  {
    if !Authorized(caller, role) {
      return Unauthorized;
    }
    if !Present(todoId) {
      return TodoIdRequired;
    }
    if !HasTodo(db.todos, todoId.value) {
      return InternalError;
    }
    db.todos := Filter(db.todos, (t: Todo) => t.id != todoId.value);
    return Deleted;
  }

  /** A caller who is not an authenticated admin gets 401 from every method, and nothing changes. */
  lemma NonAdminRejected(s: State, caller: Option<string>, role: Option<string>, email: Option<string>, page: int,
                         isSubscribed: Option<bool>, todoId: Option<string>, todoCompleted: Option<bool>,
                         todoTitle: Option<string>, now: Millis)
    requires !Present(caller) || role != Some("admin")
    ensures Inspect(s, caller, role, email, page).Code() == 401
    ensures Change(s, caller, role, email, isSubscribed, todoId, todoCompleted, todoTitle, now) == Outcome(s, Unauthorized)
    ensures Remove(s, caller, role, todoId) == Outcome(s, Unauthorized)
  {
  }

  /** GET with an email no user has is 401 "Email invalid!"; without an email the
      view has no user and no pages. */
  lemma InspectWithoutUser(s: State, caller: Option<string>, role: Option<string>, email: Option<string>, page: int)
    requires Authorized(caller, role)
    ensures !Present(email) ==> Inspect(s, caller, role, email, page) == View(None, 0, page)
    ensures Present(email) && !EmailTaken(s.users, email.value) ==>
              Inspect(s, caller, role, email, page) == EmailInvalid
  {
  }

  /** With unique emails, the todos counted by owner email are exactly those of
      the user holding it. */
  lemma CountByEmailIsOwnerCount(s: State, email: string, k: nat)
    requires Valid(s) && k < |s.users| && s.users[k].email == email
    ensures CountByEmail(s, email) == |TodosOf(s.todos, s.users[k].id)|
  {
    forall t: Todo | t in s.todos
      ensures OwnedByEmail(s.users, t, email) == (t.userId == Some(s.users[k].id))
    {
      if OwnedByEmail(s.users, t, email) {
        var i :| 0 <= i < |s.users| && s.users[i].id == t.userId.value && s.users[i].email == email;
        assert i == k;
      }
    }
    FilterSame(s.todos, (t: Todo) => OwnedByEmail(s.users, t, email), (t: Todo) => t.userId == Some(s.users[k].id));
  }

  /** GET for a known email shows that user with the page-th window of their todos,
      newest first, and `totalPages` pages of them; the page is non-empty exactly
      when it is one of those pages. */
  lemma InspectPagesOwnerTodos(s: State, caller: Option<string>, role: Option<string>, email: string, page: int)
    requires Valid(s) && Authorized(caller, role) && email != "" && page >= 1
    requires EmailTaken(s.users, email)
    ensures var r := Inspect(s, caller, role, Some(email), page);
            var u := s.users[EmailIndex(s.users, email).value];
            var ordered := NewestFirst(TodosOf(s.todos, u.id));
            r.View? && r.user.Some? && r.user.value.user == u && u.email == email &&
            r.currentPage == page &&
            |r.user.value.todos| <= ITEMS_PER_PAGE &&
            (forall j :: 0 <= j < |r.user.value.todos| ==> r.user.value.todos[j] == ordered[Skip(page) + j]) &&
            (forall t :: t in r.user.value.todos ==> t in s.todos && t.userId == Some(u.id)) &&
            r.totalPages == TotalPages(|ordered|) &&
            (r.user.value.todos != [] <==> page <= r.totalPages)
  {
    var k := EmailIndex(s.users, email).value;
    var owned := TodosOf(s.todos, s.users[k].id);
    CountByEmailIsOwnerCount(s, email, k);
    NewestFirstPage(owned, page);
    assert |NewestFirst(owned)| == |owned| by {
      assert |multiset(NewestFirst(owned))| == |multiset(owned)|;
    }
  }

  /** PUT with `isSubscribed` rewrites the user holding the email: subscribed for
      30 days from now, or unsubscribed with no end date. Nothing else changes. */
  lemma PutTogglesSubscription(s: State, caller: Option<string>, role: Option<string>, email: string,
                               isSubscribed: bool, now: Millis)
    requires Authorized(caller, role) && EmailTaken(s.users, email)
    ensures var o := Change(s, caller, role, Some(email), Some(isSubscribed), None, None, None, now);
            o.reply == Updated && o.next.todos == s.todos && o.next.subscriptions == s.subscriptions &&
            |o.next.users| == |s.users| &&
            forall i :: 0 <= i < |s.users| ==>
              o.next.users[i] ==
                if s.users[i].email == email
                then s.users[i].(isSubscribed := isSubscribed,
                                 subscriptionEnds := if isSubscribed then Some(now + 2592000000) else None)
                else s.users[i]
  {
  }

  /** PUT with an existing todo id changes `completed` only when a value is given
      and `title` only when a non-empty one is; no other field and no other todo changes. */
  lemma PutEditsTodoPartially(s: State, caller: Option<string>, role: Option<string>, email: Option<string>,
                              todoId: string, todoCompleted: Option<bool>, todoTitle: Option<string>, now: Millis)
    requires Authorized(caller, role) && todoId != "" && HasTodo(s.todos, todoId)
    ensures var o := Change(s, caller, role, email, None, Some(todoId), todoCompleted, todoTitle, now);
            o.reply == Updated && o.next.users == s.users && o.next.subscriptions == s.subscriptions &&
            |o.next.todos| == |s.todos| &&
            forall i :: 0 <= i < |s.todos| ==>
              var before, after := s.todos[i], o.next.todos[i];
              if before.id != todoId then after == before
              else after.id == before.id && after.userId == before.userId &&
                   after.createdAt == before.createdAt && after.updatedAt == before.updatedAt &&
                   after.completed == (if todoCompleted.Some? then todoCompleted.value else before.completed) &&
                   after.title == (if todoTitle.Some? && todoTitle.value != "" then todoTitle.value else before.title)
  {
  }

  /** A PUT whose todo does not exist is a 500, yet the subscription change made
      before it stays. */
  lemma PutKeepsUserUpdateOnTodoFailure(s: State, caller: Option<string>, role: Option<string>, email: string,
                                        isSubscribed: bool, todoId: string, todoCompleted: Option<bool>,
                                        todoTitle: Option<string>, now: Millis)
    requires Authorized(caller, role) && EmailTaken(s.users, email)
    requires todoId != "" && !HasTodo(s.todos, todoId)
    ensures Change(s, caller, role, Some(email), Some(isSubscribed), Some(todoId), todoCompleted, todoTitle, now) ==
            Outcome(s.(users := SetByEmail(s.users, email, isSubscribed, now)), InternalError)
  {
  }

  /** A PUT carrying both a subscription change for a known email and an edit of
      an existing todo makes both updates, one after the other, and succeeds. */
  lemma PutBothFields(s: State, caller: Option<string>, role: Option<string>, email: string,
                      isSubscribed: bool, todoId: string, todoCompleted: Option<bool>,
                      todoTitle: Option<string>, now: Millis)
    requires Authorized(caller, role) && EmailTaken(s.users, email)
    requires todoId != "" && HasTodo(s.todos, todoId)
    ensures Change(s, caller, role, Some(email), Some(isSubscribed), Some(todoId), todoCompleted, todoTitle, now) ==
            Outcome(s.(users := SetByEmail(s.users, email, isSubscribed, now),
                       todos := EditById(s.todos, todoId, todoCompleted, todoTitle)), Updated)
  {
  }

  /** DELETE without a todo id is 400 and deletes nothing; with the id of an
      existing todo it removes exactly that todo. */
  lemma DeleteRemovesExactlyOne(s: State, caller: Option<string>, role: Option<string>, todoId: Option<string>, i: nat)
    requires Valid(s) && Authorized(caller, role)
    ensures !Present(todoId) ==> Remove(s, caller, role, todoId) == Outcome(s, TodoIdRequired)
    ensures Present(todoId) && i < |s.todos| && s.todos[i].id == todoId.value ==>
              Remove(s, caller, role, todoId) == Outcome(s.(todos := s.todos[..i] + s.todos[i + 1..]), Deleted)
  {
    if Present(todoId) && i < |s.todos| && s.todos[i].id == todoId.value {
      FilterRemovesOne(s.todos, (t: Todo) => t.id != todoId.value, i);
    }
  }

  /** PUT keeps every schema constraint: no key, email or owner changes. */
  lemma ChangeKeepsValid(s: State, caller: Option<string>, role: Option<string>, email: Option<string>,
                         isSubscribed: Option<bool>, todoId: Option<string>, todoCompleted: Option<bool>,
                         todoTitle: Option<string>, now: Millis)
    requires Valid(s)
    ensures Valid(Change(s, caller, role, email, isSubscribed, todoId, todoCompleted, todoTitle, now).next)
  {
    var next := Change(s, caller, role, email, isSubscribed, todoId, todoCompleted, todoTitle, now).next;
    SameIdsSameUsers(s.users, next.users);
    assert |next.todos| == |s.todos|;
    assert forall i :: 0 <= i < |s.todos| ==> next.todos[i].id == s.todos[i].id && next.todos[i].userId == s.todos[i].userId;
  }

  /** DELETE keeps every schema constraint. */
  lemma RemoveKeepsValid(s: State, caller: Option<string>, role: Option<string>, todoId: Option<string>)
    requires Valid(s)
    ensures Valid(Remove(s, caller, role, todoId).next)
  {
    if Authorized(caller, role) && Present(todoId) && HasTodo(s.todos, todoId.value) {
      var i :| 0 <= i < |s.todos| && s.todos[i].id == todoId.value;
      DeleteRemovesExactlyOne(s, caller, role, todoId, i);
      DeleteTodoKeepsValid(s, i);
    }
  }
}
